/** The page listing the Moodle environments: each card and its button open the environment's
    URL, completed with a scheme when it has none. */
module EmailEnvironments {
  import opened Remote

  const Scheme: string := "https://"

  /** A URL starting with 'http' is kept; any other gets 'https://' in front. */
  function NormalizeUrl(url: string): (r: string)
    ensures "http" <= r
    ensures "http" <= url ==> r == url
    ensures !("http" <= url) ==> r == Scheme + url
  {
    if "http" <= url then url else Scheme + url
  }

  /** Normalising is idempotent: a normalised URL is left alone. */
  lemma NormalizeIdempotent(url: string)
    ensures NormalizeUrl(NormalizeUrl(url)) == NormalizeUrl(url)
  {
  }

  class EnvironmentsPage {
    var moodleUrls: seq<string>
    var toasts: seq<Toast>

    constructor ()
      ensures moodleUrls == [] && toasts == []
    {
      moodleUrls, toasts := [], [];
    }

    /** The mount effect: the URLs on success; an error toast and no URLs otherwise. */
    method LoadMoodleUrls(outcome: Outcome<seq<string>>)
      modifies this
      ensures outcome.Success? ==> moodleUrls == outcome.value && toasts == old(toasts)
      ensures outcome.Failure? ==> moodleUrls == old(moodleUrls) && toasts == old(toasts) + [ErrorToast("Erro ao carregar ambientes")]
      ensures outcome.Success? ==> (EmptyStateShown(false) <==> outcome.value == [])
      ensures old(moodleUrls) == [] && outcome.Failure? ==> EmptyStateShown(false)
    {
      if outcome.Success? {
        moodleUrls := outcome.value;
      } else {
        toasts := toasts + [ErrorToast("Erro ao carregar ambientes")];
      }
    }

    /** The URL the card click and its button both open. */
    method OpenEnvironment(index: nat) returns (url: string)
      requires index < |moodleUrls|
      ensures "http" <= url
      ensures "http" <= moodleUrls[index] ==> url == moodleUrls[index]
      ensures url == moodleUrls[index] || url == Scheme + moodleUrls[index]
    {
      url := NormalizeUrl(moodleUrls[index]);
    }

    /** The notice "no environments found". */
    predicate EmptyStateShown(loadingUrls: bool)
      reads this
    {
      !loadingUrls && |moodleUrls| == 0
    }
  }
}
