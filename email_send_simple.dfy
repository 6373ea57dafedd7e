/** The simpler sending page: the same environment lists and validation, one reset POST per
    selected environment, and only toasts as the outcome. */
module EmailSendSimple {
  import opened Remote
  import opened TransferList
  import Environments

  /** The body of one `/v1/moodle/request-password-reset` POST. */
  datatype ResetBody = ResetBody(environment: string, email: string, username: string)

  const FillOneText: string := "Por favor, preencha pelo menos o email ou username"
  const SelectOneText: string := "Por favor, selecione pelo menos um ambiente"

  function ResetBodies(selected: seq<TransferItem>, email: string, username: string): (bodies: seq<ResetBody>)
    ensures |bodies| == |selected|
    ensures forall i :: 0 <= i < |selected| ==> bodies[i] == ResetBody(selected[i].value, email, username)
  {
    seq(|selected|, i requires 0 <= i < |selected| => ResetBody(selected[i].value, email, username))
  }

  class SimpleSendPage {
    var loading: bool
    var email: string
    var username: string
    var toasts: seq<Toast>
    const lists: Environments.EnvironmentLists

    constructor (lists: Environments.EnvironmentLists)
      ensures this.lists == lists && !loading && email == "" && username == "" && toasts == []
    {
      this.lists := lists;
      loading, email, username, toasts := false, "", "", [];
    }

    /** `handleSendEmail`: the same two checks before any request, then one POST per selected
        environment whose results are summarised. The environment lists and the form are left
        as they are, and `loading` ends false on every path. */
    method HandleSendEmail(outcomes: seq<Outcome<()>>) returns (bodies: seq<ResetBody>, results: seq<Environments.SendResult>)
      requires |outcomes| == |lists.selected|
      modifies this
      ensures email == old(email) && username == old(username) && !loading
      ensures email == "" && username == "" ==>
        bodies == [] && results == [] && toasts == old(toasts) + [ErrorToast(FillOneText)]
      ensures !(email == "" && username == "") && lists.selected == [] ==>
        bodies == [] && results == [] && toasts == old(toasts) + [ErrorToast(SelectOneText)]
      ensures !(email == "" && username == "") && lists.selected != [] ==>
        && |results| == |lists.selected|
        && (forall i :: 0 <= i < |results| ==> results[i] == Environments.ResultOf(lists.selected[i], outcomes[i]))
        && bodies == ResetBodies(lists.selected, email, username)
        && toasts == old(toasts) + Environments.SummaryToasts(results)
    {
      loading := true;
      if email == "" && username == "" {
        toasts := toasts + [ErrorToast(FillOneText)];
        bodies, results := [], [];
        loading := false;
        return;
      }
      if |lists.selected| == 0 {
        toasts := toasts + [ErrorToast(SelectOneText)];
        bodies, results := [], [];
        loading := false;
        return;
      }
      bodies := ResetBodies(lists.selected, email, username);
      results := Environments.FanOut(lists.selected, outcomes);
      toasts := toasts + Environments.SummaryToasts(results);
      loading := false;
    }
  }
}
