/** The sample-data preview shared by the template detail modal and the template preview
    modal: thirteen global replacements of `{{key}}` placeholders, applied in a fixed order. */
module TemplatePreview {
  import opened Text

  /** A text with no curly braces in it. */
  predicate BraceFree(s: string)
  {
    forall k :: 0 <= k < |s| ==> s[k] != '{' && s[k] != '}'
  }

  /** The placeholder `{{key}}` a template writes for a variable. */
  function Placeholder(key: string): (p: string)
    ensures |p| == |key| + 4
    ensures p[..2] == "{{" && p[2..|p| - 2] == key && p[|p| - 2..] == "}}"
  {
    "{{" + key + "}}"
  }

  /** The eight replacements applied before the subject's. */
  const Before: seq<(string, string)> :=
    [ ("user.fullname", "João Silva"),
      ("user.email", "joao@exemplo.com"),
      ("user.username", "joao.silva"),
      ("reset.link", "https://exemplo.com/reset?token=abc123"),
      ("reset.token", "abc123def456"),
      ("reset.expires_at", "24 horas"),
      ("system.site_name", "OXYGENI - CEUMA"),
      ("system.support_email", "suporte@ceuma.br") ]

  /** The four replacements applied after the subject's; the date and time are the browser's
      current `pt-BR` date and time. */
  function After(date: string, time: string): seq<(string, string)>
  {
    [ ("message.title", "Redefinição de Senha"),
      ("message.content", "Você solicitou a redefinição de sua senha."),
      ("date.current", date),
      ("time.current", time) ]
  }

  /** The replacements in the order the preview applies them; `email.subject` takes the
      template's own subject. */
  function Replacements(subject: string, date: string, time: string): (table: seq<(string, string)>)
    ensures |table| == 13
    ensures table[8] == ("email.subject", subject)
  {
    Before + [("email.subject", subject)] + After(date, time)
  }

  /** The `.replace(/\{\{key\}\}/g, value)` chain, one replacement after the other. */
  function Chain(content: string, table: seq<(string, string)>): string
    decreases |table|
  {
    if table == [] then content
    else Chain(ReplaceAll(content, Placeholder(table[0].0), table[0].1), table[1..])
  }

  /** `previewContent` of both template modals. */
  function Preview(content: string, subject: string, date: string, time: string): string
  {
    Chain(content, Replacements(subject, date, time))
  }

  /** A content with none of the table's placeholders in it is shown unchanged. */
  lemma {:induction false} ChainAbsent(content: string, table: seq<(string, string)>)
    requires forall i :: 0 <= i < |table| ==> !Contains(content, Placeholder(table[i].0))
    ensures Chain(content, table) == content
  {
    if table != [] {
      ReplaceAllAbsent(content, Placeholder(table[0].0), table[0].1);
      ChainAbsent(content, table[1..]);
    }
  }

  /** A template seen as literal text and placeholders. Literal text holds no braces, so
      every brace of a well-formed template belongs to a placeholder. */
  datatype Piece = Lit(text: string) | Ph(key: string)

  function PieceText(p: Piece): string
  {
    match p
    case Lit(t) => t
    case Ph(k) => Placeholder(k)
  }

  function Flatten(ps: seq<Piece>): string
  {
    if ps == [] then "" else PieceText(ps[0]) + Flatten(ps[1..])
  }

  predicate PieceOk(p: Piece)
  {
    match p
    case Lit(t) => BraceFree(t)
    case Ph(k) => BraceFree(k)
  }

  predicate WellFormed(ps: seq<Piece>)
  {
    forall i :: 0 <= i < |ps| ==> PieceOk(ps[i])
  }

  /** Every `Ph(key)` replaced by the pieces `value`. */
  function Fill(ps: seq<Piece>, key: string, value: seq<Piece>): (r: seq<Piece>)
    ensures WellFormed(ps) && WellFormed(value) ==> WellFormed(r)
    ensures Ph(key) !in value ==> Ph(key) !in r
    ensures forall k :: Ph(k) in r ==> Ph(k) in ps || Ph(k) in value
  {
    if ps == [] then []
    else (if ps[0] == Ph(key) then value else [ps[0]]) + Fill(ps[1..], key, value)
  }

  /** The table's values, each read as pieces, applied in order. */
  function Resolve(ps: seq<Piece>, table: seq<(string, seq<Piece>)>): seq<Piece>
    decreases |table|
  {
    if table == [] then ps else Resolve(Fill(ps, table[0].0, table[0].1), table[1..])
  }

  /** `table` renders `pieces`: the same keys, each value the text of its pieces. */
  predicate Renders(pieces: seq<(string, seq<Piece>)>, table: seq<(string, string)>)
  {
    && |pieces| == |table|
    && forall i :: 0 <= i < |table| ==>
         pieces[i].0 == table[i].0 && Flatten(pieces[i].1) == table[i].1
         && BraceFree(table[i].0) && WellFormed(pieces[i].1)
  }

  lemma {:induction false} FlattenAppend(a: seq<Piece>, b: seq<Piece>)
    ensures Flatten(a + b) == Flatten(a) + Flatten(b)
  {
    if a != [] {
      assert (a + b)[0] == a[0];
      assert (a + b)[1..] == a[1..] + b;
      FlattenAppend(a[1..], b);
      calc {
        Flatten(a + b);
        PieceText(a[0]) + Flatten(a[1..] + b);
        PieceText(a[0]) + (Flatten(a[1..]) + Flatten(b));
        (PieceText(a[0]) + Flatten(a[1..])) + Flatten(b);
      }
    } else {
      assert a + b == b;
    }
  }

  /** No two placeholders with brace-free keys overlap themselves. */
  lemma PlaceholderUnbordered(key: string)
    requires BraceFree(key)
    ensures Unbordered(Placeholder(key))
  {
    var p := Placeholder(key);
    var n := |p|;
    forall j | 0 < j < n
      ensures p[j..] != p[..n - j]
    {
      if j == 1 {
        assert p[j..][1] != p[..n - j][1];
      } else {
        assert p[j..][0] != p[..n - j][0];
      }
    }
  }

  /** A placeholder never starts inside a piece other than its own placeholder. */
  lemma PieceSkipped(p: Piece, y: string, key: string)
    requires PieceOk(p) && BraceFree(key) && p != Ph(key)
    ensures forall i :: 0 <= i < |PieceText(p)| ==> !(Placeholder(key) <= (PieceText(p) + y)[i..])
  {
    var pat := Placeholder(key);
    var t := PieceText(p);
    forall i | 0 <= i < |t|
      ensures !(pat <= (t + y)[i..])
    {
      var s := (t + y)[i..];
      match p
      case Lit(u) =>
        assert s[0] != pat[0];
      case Ph(k) =>
        if i == 0 {
          if |k| == |key| {
            assert s[..|pat|] == t;
            assert t != pat by {
              assert t[2..|t| - 2] == k;
              assert pat[2..|pat| - 2] == key;
            }
          } else if |k| < |key| {
            assert s[|k| + 2] != pat[|k| + 2];
          } else {
            assert s[|key| + 2] != pat[|key| + 2];
          }
        } else if i == 1 {
          assert s[1] != pat[1];
        } else {
          assert s[0] != pat[0];
        }
    }
  }

  /** One global replacement on a well-formed template fills exactly that key's placeholders. */
  lemma {:induction false} ReplaceFills(ps: seq<Piece>, key: string, value: seq<Piece>)
    requires WellFormed(ps) && BraceFree(key)
    ensures ReplaceAll(Flatten(ps), Placeholder(key), Flatten(value)) == Flatten(Fill(ps, key, value))
  {
    if ps != [] {
      var pat, v := Placeholder(key), Flatten(value);
      var rest := Flatten(ps[1..]);
      var head := if ps[0] == Ph(key) then value else [ps[0]];
      assert WellFormed(ps[1..]) by {
        forall i | 0 <= i < |ps[1..]| ensures PieceOk(ps[1..][i]) {
          assert ps[1..][i] == ps[i + 1];
        }
      }
      ReplaceFills(ps[1..], key, value);
      assert Fill(ps, key, value) == head + Fill(ps[1..], key, value);
      FlattenAppend(head, Fill(ps[1..], key, value));
      HeadReplaced(ps[0], rest, key, value);
    }
  }

  lemma HeadReplaced(p: Piece, rest: string, key: string, value: seq<Piece>)
    requires PieceOk(p) && BraceFree(key)
    ensures ReplaceAll(PieceText(p) + rest, Placeholder(key), Flatten(value))
         == Flatten(if p == Ph(key) then value else [p]) + ReplaceAll(rest, Placeholder(key), Flatten(value))
  {
    if p == Ph(key) {
      PlaceholderReplaced(key, rest, value);
    } else {
      OtherPieceKept(p, rest, key, value);
    }
  }

  lemma PlaceholderReplaced(key: string, rest: string, value: seq<Piece>)
    requires BraceFree(key)
    ensures ReplaceAll(Placeholder(key) + rest, Placeholder(key), Flatten(value))
         == Flatten(value) + ReplaceAll(rest, Placeholder(key), Flatten(value))
  {
    var pat := Placeholder(key);
    var s := pat + rest;
    assert pat <= s && s[|pat|..] == rest;
  }

  lemma OtherPieceKept(p: Piece, rest: string, key: string, value: seq<Piece>)
    requires PieceOk(p) && BraceFree(key) && p != Ph(key)
    ensures ReplaceAll(PieceText(p) + rest, Placeholder(key), Flatten(value))
         == PieceText(p) + ReplaceAll(rest, Placeholder(key), Flatten(value))
  {
    PieceSkipped(p, rest, key);
    ReplaceAllSkip(PieceText(p), rest, Placeholder(key), Flatten(value));
  }

  /** The replacement chain on a well-formed template is the resolution of its pieces. */
  lemma {:induction false} ChainResolves(ps: seq<Piece>, pieces: seq<(string, seq<Piece>)>, table: seq<(string, string)>)
    requires WellFormed(ps) && Renders(pieces, table)
    ensures Chain(Flatten(ps), table) == Flatten(Resolve(ps, pieces))
    decreases |table|
  {
    if table != [] {
      ReplaceFills(ps, table[0].0, pieces[0].1);
      ChainResolves(Fill(ps, table[0].0, pieces[0].1), pieces[1..], table[1..]);
    }
  }

  lemma {:induction false} FillAbsent(ps: seq<Piece>, key: string, value: seq<Piece>)
    requires Ph(key) !in ps
    ensures Fill(ps, key, value) == ps
  {
    if ps != [] {
      assert ps[0] in ps;
      FillAbsent(ps[1..], key, value);
    }
  }

  /** A placeholder whose key is not in the table is left as it is. */
  lemma {:induction false} ResolveKeepsUnknown(ps: seq<Piece>, pieces: seq<(string, seq<Piece>)>)
    requires forall i :: 0 <= i < |pieces| ==> Ph(pieces[i].0) !in ps
    ensures Resolve(ps, pieces) == ps
    decreases |pieces|
  {
    if pieces != [] {
      FillAbsent(ps, pieces[0].0, pieces[0].1);
      ResolveKeepsUnknown(ps, pieces[1..]);
    }
  }

  /** With literal values, no placeholder of the table survives resolution. */
  lemma {:induction false} ResolveRemovesKeys(ps: seq<Piece>, pieces: seq<(string, seq<Piece>)>)
    requires forall i :: 0 <= i < |pieces| ==> forall q :: q in pieces[i].1 ==> q.Lit?
    ensures forall i :: 0 <= i < |pieces| ==> Ph(pieces[i].0) !in Resolve(ps, pieces)
    decreases |pieces|
  {
    if pieces != [] {
      var next := Fill(ps, pieces[0].0, pieces[0].1);
      ResolveRemovesKeys(next, pieces[1..]);
      ResolveKeepsAbsent(next, pieces[1..], pieces[0].0);
    }
  }

  lemma {:induction false} ResolveKeepsAbsent(ps: seq<Piece>, pieces: seq<(string, seq<Piece>)>, key: string)
    requires forall i :: 0 <= i < |pieces| ==> forall q :: q in pieces[i].1 ==> q.Lit?
    requires Ph(key) !in ps
    ensures Ph(key) !in Resolve(ps, pieces)
    decreases |pieces|
  {
    if pieces != [] {
      ResolveKeepsAbsent(Fill(ps, pieces[0].0, pieces[0].1), pieces[1..], key);
    }
  }

  lemma {:induction false} ResolveWellFormed(ps: seq<Piece>, pieces: seq<(string, seq<Piece>)>)
    requires WellFormed(ps)
    requires forall i :: 0 <= i < |pieces| ==> WellFormed(pieces[i].1)
    ensures WellFormed(Resolve(ps, pieces))
    decreases |pieces|
  {
    if pieces != [] {
      ResolveWellFormed(Fill(ps, pieces[0].0, pieces[0].1), pieces[1..]);
    }
  }

  /** Keys and values of the table hold no braces. */
  predicate TableOk(table: seq<(string, string)>)
  {
    forall i :: 0 <= i < |table| ==> BraceFree(table[i].0) && BraceFree(table[i].1)
  }

  /** A table of brace-free values read as pieces: each value one literal. */
  function LiteralPieces(table: seq<(string, string)>): (pieces: seq<(string, seq<Piece>)>)
    ensures |pieces| == |table|
    ensures forall i :: 0 <= i < |table| ==> pieces[i] == (table[i].0, [Lit(table[i].1)])
  {
    if table == [] then [] else [(table[0].0, [Lit(table[0].1)])] + LiteralPieces(table[1..])
  }

  lemma LiteralPiecesRender(table: seq<(string, string)>)
    requires TableOk(table)
    ensures Renders(LiteralPieces(table), table)
  {
    var pieces := LiteralPieces(table);
    forall i | 0 <= i < |table|
      ensures Flatten(pieces[i].1) == table[i].1
    {
      assert Flatten([Lit(table[i].1)]) == table[i].1 + Flatten([]);
    }
  }

  /** Running the chain twice on a well-formed template gives what running it once does when
      no value holds a brace: the known placeholders are all filled with plain text the first
      time, and the unknown ones are left alone both times. */
  lemma ChainIdempotent(ps: seq<Piece>, table: seq<(string, string)>)
    requires WellFormed(ps) && TableOk(table)
    ensures Chain(Chain(Flatten(ps), table), table) == Chain(Flatten(ps), table)
  {
    var pieces := LiteralPieces(table);
    LiteralPiecesRender(table);
    ChainResolves(ps, pieces, table);
    var once := Resolve(ps, pieces);
    ResolveRemovesKeys(ps, pieces);
    ResolveWellFormed(ps, pieces);
    ChainResolves(once, pieces, table);
    ResolveKeepsUnknown(once, pieces);
  }

  lemma BeforeOk()
    ensures TableOk(Before)
  {
    UserLiteralsOk();
    ResetLiteralsOk();
    SystemLiteralsOk();
  }

  lemma UserLiteralsOk()
    ensures BraceFree("user.fullname") && BraceFree("João Silva")
    ensures BraceFree("user.email") && BraceFree("joao@exemplo.com")
    ensures BraceFree("user.username") && BraceFree("joao.silva")
  {
  }

  lemma ResetLiteralsOk()
    ensures BraceFree("reset.link") && BraceFree("https://exemplo.com/reset?token=abc123")
    ensures BraceFree("reset.token") && BraceFree("abc123def456")
    ensures BraceFree("reset.expires_at") && BraceFree("24 horas")
  {
    SampleLinkOk();
  }

  lemma SampleLinkOk()
    ensures BraceFree("https://exemplo.com/reset?token=abc123")
  {
  }

  lemma SystemLiteralsOk()
    ensures BraceFree("system.site_name") && BraceFree("OXYGENI - CEUMA")
    ensures BraceFree("system.support_email") && BraceFree("suporte@ceuma.br")
  {
  }

  lemma AfterLiteralsOk()
    ensures BraceFree("message.title") && BraceFree("Redefinição de Senha")
    ensures BraceFree("message.content") && BraceFree("Você solicitou a redefinição de sua senha.")
    ensures BraceFree("date.current") && BraceFree("time.current")
  {
    SampleContentOk();
  }

  lemma SampleContentOk()
    ensures BraceFree("Você solicitou a redefinição de sua senha.")
  {
  }

  lemma AfterOk(date: string, time: string)
    requires BraceFree(date) && BraceFree(time)
    ensures TableOk(After(date, time))
  {
    AfterLiteralsOk();
    var after := After(date, time);
    assert after[0] == ("message.title", "Redefinição de Senha");
    assert after[1] == ("message.content", "Você solicitou a redefinição de sua senha.");
    assert after[2] == ("date.current", date);
    assert after[3] == ("time.current", time);
  }

  /** The replacement keys hold no braces and none ends in ')'. */
  lemma ReplacementKeys(subject: string, date: string, time: string)
    ensures var table := Replacements(subject, date, time);
            forall i :: 0 <= i < |table| ==>
              BraceFree(table[i].0) && |table[i].0| > 0 && table[i].0[|table[i].0| - 1] != ')'
  {
    BeforeOk();
    AfterOk("", "");
    var table := Replacements(subject, date, time);
    forall i | 0 <= i < |table|
      ensures BraceFree(table[i].0) && |table[i].0| > 0 && table[i].0[|table[i].0| - 1] != ')'
    {
      if i < 8 {
        assert table[i] == Before[i];
      } else if i == 8 {
        assert BraceFree("email.subject");
      } else {
        assert table[i].0 == After("", "")[i - 9].0;
      }
    }
  }

  lemma ReplacementsOk(subject: string, date: string, time: string)
    requires BraceFree(subject) && BraceFree(date) && BraceFree(time)
    ensures TableOk(Replacements(subject, date, time))
  {
    BeforeOk();
    AfterOk(date, time);
    TableOkAppend(Before, [("email.subject", subject)]);
    TableOkAppend(Before + [("email.subject", subject)], After(date, time));
  }

  lemma TableOkAppend(a: seq<(string, string)>, b: seq<(string, string)>)
    requires TableOk(a) && TableOk(b)
    ensures TableOk(a + b)
  {
    forall i | 0 <= i < |a + b|
      ensures BraceFree((a + b)[i].0) && BraceFree((a + b)[i].1)
    {
      if i >= |a| {
        assert (a + b)[i] == b[i - |a|];
      }
    }
  }

  /** Previewing a previewed well-formed template changes nothing when the subject, date and
      time hold no braces. */
  lemma PreviewIdempotent(ps: seq<Piece>, subject: string, date: string, time: string)
    requires WellFormed(ps) && BraceFree(subject) && BraceFree(date) && BraceFree(time)
    ensures Preview(Preview(Flatten(ps), subject, date, time), subject, date, time)
         == Preview(Flatten(ps), subject, date, time)
  {
    ReplacementsOk(subject, date, time);
    ChainIdempotent(ps, Replacements(subject, date, time));
  }

  /** Running the chain over `a + b` runs it over `a`, then over `b`. */
  lemma {:induction false} ChainAppend(x: string, a: seq<(string, string)>, b: seq<(string, string)>)
    ensures Chain(x, a + b) == Chain(Chain(x, a), b)
    decreases |a|
  {
    if a == [] {
      assert a + b == b;
    } else {
      assert (a + b)[1..] == a[1..] + b;
      ChainAppend(ReplaceAll(x, Placeholder(a[0].0), a[0].1), a[1..], b);
    }
  }

  lemma BraceFreeHasNoPlaceholder(s: string, key: string)
    requires BraceFree(s)
    ensures !Contains(s, Placeholder(key))
  {
    forall i | 0 <= i < |s| ensures !(Placeholder(key) <= s[i..]) {
      assert s[i..][0] != Placeholder(key)[0];
    }
    NotContains(s, Placeholder(key));
  }

  /** A text without braces passes through the chain unchanged. */
  lemma BraceFreeChain(s: string, table: seq<(string, string)>)
    requires BraceFree(s)
    ensures Chain(s, table) == s
  {
    forall i | 0 <= i < |table|
      ensures !Contains(s, Placeholder(table[i].0))
    {
      BraceFreeHasNoPlaceholder(s, table[i].0);
    }
    ChainAbsent(s, table);
  }

  /** A placeholder does not occur inside another key's placeholder. */
  lemma PlaceholderNotInOther(key: string, other: string)
    requires BraceFree(key) && BraceFree(other) && key != other
    ensures !Contains(Placeholder(key), Placeholder(other))
  {
    PieceSkipped(Ph(key), "", other);
    forall i | 0 <= i < |Placeholder(key)| ensures !(Placeholder(other) <= Placeholder(key)[i..]) {
      assert (PieceText(Ph(key)) + "")[i..] == Placeholder(key)[i..];
    }
    NotContains(Placeholder(key), Placeholder(other));
  }

  /** The placeholder of a key the table does not list is shown as written. */
  lemma ChainKeepsUnknown(key: string, table: seq<(string, string)>)
    requires BraceFree(key)
    requires forall i :: 0 <= i < |table| ==> BraceFree(table[i].0) && table[i].0 != key
    ensures Chain(Placeholder(key), table) == Placeholder(key)
  {
    forall i | 0 <= i < |table|
      ensures !Contains(Placeholder(key), Placeholder(table[i].0))
    {
      PlaceholderNotInOther(key, table[i].0);
    }
    ChainAbsent(Placeholder(key), table);
  }

  /** A placeholder with a length modifier, such as `{{user.fullname(30)}}`, is not one of
      the preview's keys and is shown as written. */
  lemma ModifierShownAsWritten(subject: string, date: string, time: string)
    ensures Preview(Placeholder("user.fullname(30)"), subject, date, time) == Placeholder("user.fullname(30)")
  {
    ReplacementKeys(subject, date, time);
    var table := Replacements(subject, date, time);
    assert forall i :: 0 <= i < |table| ==> table[i].0 != "user.fullname(30)";
    ChainKeepsUnknown("user.fullname(30)", table);
  }

  /** One replacement on exactly its own placeholder yields the value. */
  lemma ReplaceOwnPlaceholder(key: string, value: string)
    requires BraceFree(key)
    ensures Chain(Placeholder(key), [(key, value)]) == value
  {
    PlaceholderUnbordered(key);
    ReplaceAllAround("", Placeholder(key), "", value);
    assert "" + Placeholder(key) + "" == Placeholder(key);
    assert ReplaceAll("", Placeholder(key), value) == "";
  }

  /** No key before the subject's is `email.subject`: none starts with 'e'. */
  lemma BeforeKeysNotSubject()
    ensures forall i :: 0 <= i < |Before| ==> Before[i].0 != "email.subject"
  {
    forall i | 0 <= i < |Before|
      ensures Before[i].0 != "email.subject"
    {
      assert Before[i].0[0] != 'e';
    }
  }

  /** `{{email.subject}}` becomes the subject, and only the four later replacements then
      run over the inserted text. */
  lemma SubjectPlaceholderPreview(subject: string, date: string, time: string)
    ensures Preview(Placeholder("email.subject"), subject, date, time) == Chain(subject, After(date, time))
  {
    var es := [("email.subject", subject)];
    SubjectSurvivesBefore();
    ChainAppend(Placeholder("email.subject"), Before + es, After(date, time));
    ChainAppend(Placeholder("email.subject"), Before, es);
    SubjectKeyOk();
    ReplaceOwnPlaceholder("email.subject", subject);
  }

  lemma SubjectKeyOk()
    ensures BraceFree("email.subject")
  {
  }

  /** No replacement before the subject's touches `{{email.subject}}`. */
  lemma SubjectSurvivesBefore()
    ensures Chain(Placeholder("email.subject"), Before) == Placeholder("email.subject")
  {
    BeforeOk();
    BeforeKeysNotSubject();
    SubjectKeyOk();
    ChainKeepsUnknown("email.subject", Before);
  }

  /** The placeholder of a key met first at `(key, value)` ends up as that value, when the
      value holds no braces. */
  lemma ChainHitsKey(key: string, value: string, a: seq<(string, string)>, b: seq<(string, string)>)
    requires BraceFree(key) && BraceFree(value)
    requires forall i :: 0 <= i < |a| ==> BraceFree(a[i].0) && a[i].0 != key
    ensures Chain(Placeholder(key), a + [(key, value)] + b) == value
  {
    ChainKeepsUnknown(key, a);
    ChainAppend(Placeholder(key), a + [(key, value)], b);
    ChainAppend(Placeholder(key), a, [(key, value)]);
    ReplaceOwnPlaceholder(key, value);
    BraceFreeChain(value, b);
  }

  /** So a subject that is the placeholder of a later key (`{{date.current}}`) is expanded
      in the preview... */
  lemma SubjectLaterKeyExpanded(date: string, time: string)
    requires BraceFree(date) && BraceFree(time)
    ensures Preview(Placeholder("email.subject"), Placeholder("date.current"), date, time) == date
  {
    SubjectPlaceholderPreview(Placeholder("date.current"), date, time);
    DateKeyHit(date, time);
  }

  /** Among the replacements after the subject's, `{{date.current}}` becomes the date. */
  lemma DateKeyHit(date: string, time: string)
    requires BraceFree(date) && BraceFree(time)
    ensures Chain(Placeholder("date.current"), After(date, time)) == date
  {
    var after := After(date, time);
    assert after == after[..2] + [("date.current", date)] + after[3..];
    AfterOk(date, time);
    assert BraceFree(after[2].0);
    ChainHitsKey("date.current", date, after[..2], after[3..]);
  }

  /** ...while one of an earlier key (`{{user.email}}`) is shown raw. */
  lemma SubjectEarlierKeyRaw(date: string, time: string)
    ensures Preview(Placeholder("email.subject"), Placeholder("user.email"), date, time)
         == Placeholder("user.email")
  {
    SubjectPlaceholderPreview(Placeholder("user.email"), date, time);
    UserEmailSurvivesAfter(date, time);
  }

  /** No replacement after the subject's touches `{{user.email}}`. */
  lemma UserEmailSurvivesAfter(date: string, time: string)
    ensures Chain(Placeholder("user.email"), After(date, time)) == Placeholder("user.email")
  {
    UserEmailKeyOk();
    AfterLiteralsOk();
    var after := After(date, time);
    forall i | 0 <= i < |after|
      ensures BraceFree(after[i].0) && after[i].0 != "user.email"
    {
      assert after[i].0[0] != 'u';
    }
    ChainKeepsUnknown("user.email", after);
  }

  lemma UserEmailKeyOk()
    ensures BraceFree("user.email")
  {
  }

  /** `{{user.email}}` in the content shows the sample e-mail, whatever the subject; with a
      subject of `{{user.email}}` a second preview therefore differs from the first. */
  lemma UserEmailPreview(subject: string, date: string, time: string)
    ensures Preview(Placeholder("user.email"), subject, date, time) == "joao@exemplo.com"
  {
    var rest := Before[2..] + [("email.subject", subject)] + After(date, time);
    assert Replacements(subject, date, time) == Before[..1] + [("user.email", "joao@exemplo.com")] + rest;
    assert BraceFree("joao@exemplo.com");
    ChainHitsKey("user.email", "joao@exemplo.com", Before[..1], rest);
  }

  /** Preview is not idempotent once the subject holds a placeholder. */
  lemma PreviewNotIdempotent(date: string, time: string)
    requires BraceFree(date) && BraceFree(time)
    ensures var once := Preview(Placeholder("email.subject"), Placeholder("user.email"), date, time);
            Preview(once, Placeholder("user.email"), date, time) != once
  {
    SubjectEarlierKeyRaw(date, time);
    UserEmailPreview(Placeholder("user.email"), date, time);
    assert Placeholder("user.email")[0] != "joao@exemplo.com"[0];
  }
}
