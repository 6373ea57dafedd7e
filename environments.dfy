/** What the two e-mail sending pages share: the environment lists built from the Moodle URLs,
    the transfer between the available and the selected list, and the fan-out of one reset
    request per selected environment with its per-environment results. */
module Environments {
  import opened Remote
  import Text
  import Paging
  import opened TransferList

  /** `env-<index>`. */
  function EnvironmentId(index: nat): string
  {
    "env-" + Text.NatToString(index)
  }

  /** One transfer item per URL, its id from its position and its label and value the URL. */
  function EnvironmentItems(urls: seq<string>): (items: seq<TransferItem>)
    ensures |items| == |urls|
    ensures forall i :: 0 <= i < |urls| ==> items[i] == TransferItem(EnvironmentId(i), urls[i], urls[i], false)
  {
    seq(|urls|, i requires 0 <= i < |urls| => TransferItem(EnvironmentId(i), urls[i], urls[i], false))
  }

  /** No two items share an id. */
  predicate UniqueIds(items: seq<TransferItem>)
  {
    forall i, j :: 0 <= i < |items| && 0 <= j < |items| && items[i].id == items[j].id ==> i == j
  }

  /** The items built from the URLs have distinct ids, whatever the URLs. */
  lemma EnvironmentIdsUnique(urls: seq<string>)
    ensures UniqueIds(EnvironmentItems(urls))
  {
    var items := EnvironmentItems(urls);
    forall i, j | 0 <= i < |items| && 0 <= j < |items| && items[i].id == items[j].id
      ensures i == j
    {
      var p := "env-";
      assert EnvironmentId(i)[|p|..] == Text.NatToString(i);
      assert EnvironmentId(j)[|p|..] == Text.NatToString(j);
      Text.NatToStringInjective(i, j);
    }
  }

  predicate HasId(items: seq<TransferItem>, id: string)
  {
    exists k :: 0 <= k < |items| && items[k].id == id
  }

  /** `list.filter(env => !items.some(item => item.id === env.id))`. */
  function WithoutItems(list: seq<TransferItem>, items: seq<TransferItem>): (r: seq<TransferItem>)
    ensures forall x :: x in r <==> x in list && !HasId(items, x.id)
  {
    Paging.Filter(list, (env: TransferItem) => !HasId(items, env.id))
  }

  /** The environment lists of a sending page. */
  class EnvironmentLists {
    var moodleUrls: seq<string>
    var available: seq<TransferItem>
    var selected: seq<TransferItem>

    constructor ()
      ensures moodleUrls == [] && available == [] && selected == []
    {
      moodleUrls, available, selected := [], [], [];
    }

    /** The mount effect: the URLs and one available item per URL; on failure an error toast
        and nothing changes. */
    method Load(outcome: Outcome<seq<string>>) returns (toast: Option<Toast>)
      modifies this
      ensures outcome.Success? ==>
        moodleUrls == outcome.value && available == EnvironmentItems(outcome.value) && toast.None?
      ensures outcome.Failure? ==>
        moodleUrls == old(moodleUrls) && available == old(available) && toast == Some(ErrorToast("Erro ao carregar ambientes"))
      ensures selected == old(selected)
    {
      if outcome.Success? {
        moodleUrls := outcome.value;
        available := EnvironmentItems(outcome.value);
        toast := None;
      } else {
        toast := Some(ErrorToast("Erro ao carregar ambientes"));
      }
    }

    /** `handleEnvironmentTransfer`: the moved items are appended to the target list and every
        item with one of their ids leaves the source list. */
    method Transfer(items: seq<TransferItem>, direction: Direction)
      modifies this
      ensures direction == Right ==> selected == old(selected) + items && available == WithoutItems(old(available), items)
      ensures direction == Left ==> available == old(available) + items && selected == WithoutItems(old(selected), items)
      ensures moodleUrls == old(moodleUrls)
    {
      if direction == Right {
        selected := selected + items;
        available := WithoutItems(available, items);
      } else {
        available := available + items;
        selected := WithoutItems(selected, items);
      }
    }
  }

  /** Moving items taken from a list of distinct ids loses none and invents none: every
      environment is in one of the two lists before the move exactly when it is after it. */
  lemma TransferKeepsEnvironments(source: seq<TransferItem>, target: seq<TransferItem>, items: seq<TransferItem>)
    requires UniqueIds(source)
    requires forall k :: 0 <= k < |items| ==> items[k] in source
    ensures forall x :: x in source || x in target <==> x in WithoutItems(source, items) || x in target + items
  {
    forall x | x in source && HasId(items, x.id)
      ensures x in items
    {
      var k :| 0 <= k < |items| && items[k].id == x.id;
      var i :| 0 <= i < |source| && source[i] == x;
      var j :| 0 <= j < |source| && source[j] == items[k];
      assert i == j;
    }
  }

  /** What one environment's reset request came to. */
  datatype SendResult = SendResult(environment: string, success: bool, error: string)

  const UnknownError: string := "Erro desconhecido"

  /** A call that returns is a success, whatever it answers; a failed one records the server's
      message or 'Erro desconhecido'. */
  function ResultOf<R>(env: TransferItem, outcome: Outcome<R>): (r: SendResult)
    ensures r.environment == env.value
    ensures r.success <==> outcome.Success?
    ensures !r.success ==> r.error == OrElse(outcome.serverMessage, UnknownError)
  {
    match outcome
    case Success(_) => SendResult(env.value, true, "")
    case Failure(server, _) => SendResult(env.value, false, OrElse(server, UnknownError))
  }

  /** The fan-out: one call per selected environment, awaited together; each call's failure is
      caught on its own and the results keep the selection order. */
  method FanOut<R>(selected: seq<TransferItem>, outcomes: seq<Outcome<R>>) returns (results: seq<SendResult>)
    requires |outcomes| == |selected|
    ensures |results| == |selected|
    ensures forall i :: 0 <= i < |selected| ==> results[i] == ResultOf(selected[i], outcomes[i])
  {
    results := [];
    var i := 0;
    while i < |selected|
      invariant 0 <= i <= |selected| && |results| == i
      invariant forall k :: 0 <= k < i ==> results[k] == ResultOf(selected[k], outcomes[k])
    {
      results := results + [ResultOf(selected[i], outcomes[i])];
      i := i + 1;
    }
  }

  function Successful(results: seq<SendResult>): seq<SendResult>
  {
    Paging.Filter(results, (r: SendResult) => r.success)
  }

  function Failed(results: seq<SendResult>): seq<SendResult>
  {
    Paging.Filter(results, (r: SendResult) => !r.success)
  }

  function Names(results: seq<SendResult>): (names: seq<string>)
    ensures |names| == |results|
    ensures forall i :: 0 <= i < |results| ==> names[i] == results[i].environment
  {
    seq(|results|, i requires 0 <= i < |results| => results[i].environment)
  }

  /** The summary toasts: the success count if any, then the failed environments joined by
      ', ' in selection order, if any. */
  function SummaryToasts(results: seq<SendResult>): (toasts: seq<Toast>)
    ensures |toasts| <= 2
    ensures |Successful(results)| > 0 <==> |toasts| > 0 && toasts[0].SuccessToast?
    ensures |Failed(results)| > 0 <==> |toasts| > 0 && toasts[|toasts| - 1].ErrorToast?
    ensures |Successful(results)| > 0 ==>
      toasts[0] == SuccessToast("Email enviado com sucesso para " + Text.NatToString(|Successful(results)|) + " ambiente(s)")
    ensures |Failed(results)| > 0 ==>
      toasts[|toasts| - 1] == ErrorToast("Falha ao enviar para: " + Text.Join(Names(Failed(results)), ", "))
  {
    var ok := Successful(results);
    var failed := Failed(results);
    (if |ok| > 0 then [SuccessToast("Email enviado com sucesso para " + Text.NatToString(|ok|) + " ambiente(s)")] else [])
    + (if |failed| > 0 then [ErrorToast("Falha ao enviar para: " + Text.Join(Names(failed), ", "))] else [])
  }

  /** Every result is either a success or a failure, and the failures are the environments
      whose calls failed. */
  lemma ResultsPartition(results: seq<SendResult>)
    ensures |Successful(results)| + |Failed(results)| == |results|
    ensures forall r :: r in Failed(results) <==> r in results && !r.success
  {
    Paging.FilterPartition(results, (r: SendResult) => r.success, (r: SendResult) => !r.success);
  }

  /** The environments whose calls failed, as `selected[i].value` for each failed `i`, in
      increasing `i`. */
  function FailedEnvironments<R>(selected: seq<TransferItem>, outcomes: seq<Outcome<R>>): (names: seq<string>)
    requires |outcomes| == |selected|
    ensures |names| <= |selected|
    ensures forall i :: 0 <= i < |selected| && outcomes[i].Failure? ==> selected[i].value in names
    ensures forall n :: n in names ==> exists i :: 0 <= i < |selected| && outcomes[i].Failure? && selected[i].value == n
    decreases |selected|
  {
    if selected == [] then []
    else
      var rest := FailedEnvironments(selected[1..], outcomes[1..]);
      assert forall i :: 1 <= i < |selected| ==> selected[1..][i - 1] == selected[i] && outcomes[1..][i - 1] == outcomes[i];
      (if outcomes[0].Failure? then [selected[0].value] else []) + rest
  }

  lemma NamesAppend(a: seq<SendResult>, b: seq<SendResult>)
    ensures Names(a + b) == Names(a) + Names(b)
  {
  }

  /** The error toast names exactly the environments whose calls failed, in selection order. */
  lemma {:induction false} FailedNamesInOrder<R>(selected: seq<TransferItem>, outcomes: seq<Outcome<R>>,
                                                results: seq<SendResult>)
    requires |outcomes| == |selected| == |results|
    requires forall i :: 0 <= i < |selected| ==> results[i] == ResultOf(selected[i], outcomes[i])
    ensures Names(Failed(results)) == FailedEnvironments(selected, outcomes)
    decreases |selected|
  {
    if selected != [] {
      forall i | 0 <= i < |selected[1..]|
        ensures results[1..][i] == ResultOf(selected[1..][i], outcomes[1..][i])
      {
        assert results[1..][i] == results[i + 1];
      }
      FailedNamesInOrder(selected[1..], outcomes[1..], results[1..]);
      FailedNamesStep(results);
    }
  }

  lemma FailedNamesStep(results: seq<SendResult>)
    requires results != []
    ensures Names(Failed(results))
         == (if !results[0].success then [results[0].environment] else []) + Names(Failed(results[1..]))
  {
    var head := if !results[0].success then [results[0]] else [];
    assert Failed(results) == head + Failed(results[1..]);
    NamesAppend(head, Failed(results[1..]));
    assert Names(head) == (if !results[0].success then [results[0].environment] else []);
  }

  /** The success count is the number of environments whose calls did not fail. */
  lemma SuccessCount<R>(selected: seq<TransferItem>, outcomes: seq<Outcome<R>>, results: seq<SendResult>)
    requires |outcomes| == |selected| == |results|
    requires forall i :: 0 <= i < |selected| ==> results[i] == ResultOf(selected[i], outcomes[i])
    ensures |Successful(results)| == |selected| - |FailedEnvironments(selected, outcomes)|
  {
    ResultsPartition(results);
    FailedNamesInOrder(selected, outcomes, results);
  }

  /** A send with every call failing reports no success, and one with every call succeeding
      reports no failure. */
  lemma AllOrNothing<R>(selected: seq<TransferItem>, outcomes: seq<Outcome<R>>, results: seq<SendResult>)
    requires |outcomes| == |selected| == |results|
    requires forall i :: 0 <= i < |selected| ==> results[i] == ResultOf(selected[i], outcomes[i])
    ensures (forall i :: 0 <= i < |outcomes| ==> outcomes[i].Failure?) ==> Successful(results) == []
    ensures (forall i :: 0 <= i < |outcomes| ==> outcomes[i].Success?) ==> Failed(results) == []
  {
    if forall i :: 0 <= i < |outcomes| ==> outcomes[i].Failure? {
      Paging.FilterDropsAll(results, (r: SendResult) => r.success);
    }
    if forall i :: 0 <= i < |outcomes| ==> outcomes[i].Success? {
      Paging.FilterDropsAll(results, (r: SendResult) => !r.success);
    }
  }
}
