/**
  Quoting for `obol env` (cmd/obol/passthrough.go), against readers of the three shells: what
  one word of shell text stands for.
*/
module Quoting {
  import opened Wrappers
  import opened Text

  function Replace(s: string, c: char, with: string): string {
    if s == "" then "" else (if s[0] == c then with else [s[0]]) + Replace(s[1..], c, with)
  }

  function ShQuote(s: string): string {
    ['\''] + Replace(s, '\'', SH_ESCAPE) + ['\'']
  }

  /** strings.NewReplacer works in one pass, so the order of the pairs does not matter. */
  function FishEscaped(s: string): string {
    if s == "" then ""
    else (if s[0] == '\\' || s[0] == '\'' then ['\\', s[0]] else [s[0]]) + FishEscaped(s[1..])
  }

  function FishQuote(s: string): string {
    ['\''] + FishEscaped(s) + ['\'']
  }

  function PwshQuote(s: string): string {
    ['\''] + Replace(s, '\'', ['\'', '\'']) + ['\'']
  }

  function Prepend(c: char, r: Option<string>): Option<string> {
    match r
    case None => None
    case Some(w) => Some([c] + w)
  }

  // ----- POSIX shell -----

  /** Characters that do not stand for themselves in an unquoted word. */
  predicate ShSpecial(c: char) {
    c in {'|', '&', ';', '<', '>', '(', ')', '$', '`', '\\', '"', '\'', ' ', '\t', '\n',
          '*', '?', '[', '#', '~', '=', '%'}
  }

  /**
    The literal word a shell text stands for, outside or inside single quotes: sections 2.2.1
    and 2.2.2 of the POSIX Shell Command Language. None when it is not one such word.
  */
  function ShRead(t: string, quoted: bool): Option<string>
    decreases |t|
  {
    if t == "" then (if quoted then None else Some(""))
    else if t[0] == '\'' then ShRead(t[1..], !quoted)
    else if quoted then Prepend(t[0], ShRead(t[1..], true))
    else if t[0] == '\\' && |t| > 1 && t[1] != '\n' then Prepend(t[1], ShRead(t[2..], false))
    else if ShSpecial(t[0]) then None
    else Prepend(t[0], ShRead(t[1..], false))
  }

  const SH_ESCAPE: string := ['\'', '\\', '\'', '\'']

  /** Inside single quotes, the escape closes them, writes one quote, and opens them again. */
  lemma ShReadsEscape(rest: string)
    ensures ShRead(SH_ESCAPE + rest, true) == Prepend('\'', ShRead(rest, true))
  {
    var t := SH_ESCAPE + rest;
    var t1, t2 := t[1..], ['\''] + rest;
    assert t1[2..] == t2 && t2[1..] == rest;
    assert ShRead(t2, false) == ShRead(rest, true);
    assert ShRead(t1, false) == Prepend('\'', ShRead(t2, false));
  }

  lemma {:induction false} ShReadsEscaped(s: string)
    ensures ShRead(Replace(s, '\'', SH_ESCAPE) + ['\''], true) == Some(s)
  {
    var t := Replace(s, '\'', SH_ESCAPE) + ['\''];
    if s == "" {
      assert t[1..] == "";
    } else {
      ShReadsEscaped(s[1..]);
      var rest := Replace(s[1..], '\'', SH_ESCAPE) + ['\''];
      if s[0] == '\'' {
        assert t == SH_ESCAPE + rest;
        ShReadsEscape(rest);
      } else {
        assert t[1..] == rest;
      }
      assert [s[0]] + s[1..] == s;
    }
  }

  /** For every string, the quoted form is one word that stands for exactly that string. */
  lemma ShQuoteReadsBack(s: string)
    ensures ShRead(ShQuote(s), false) == Some(s)
  {
    ShReadsEscaped(s);
    assert ShQuote(s)[1..] == Replace(s, '\'', SH_ESCAPE) + ['\''];
  }

  // ----- fish -----

  /** The rest of a single-quoted fish string, which must end the text. */
  function FishRead(t: string): Option<string>
    decreases |t|
  {
    if t == "" then None
    else if t[0] == '\'' then (if |t| == 1 then Some("") else None)
    else if t[0] == '\\' && |t| > 1 && (t[1] == '\\' || t[1] == '\'') then Prepend(t[1], FishRead(t[2..]))
    else Prepend(t[0], FishRead(t[1..]))
  }

  lemma FishReadsChar(c: char, rest: string)
    requires rest != ""
    ensures FishRead((if c == '\\' || c == '\'' then ['\\', c] else [c]) + rest) == Prepend(c, FishRead(rest))
  {
    if c == '\\' || c == '\'' {
      assert (['\\', c] + rest)[2..] == rest;
    } else {
      assert ([c] + rest)[1..] == rest;
    }
  }

  lemma {:induction false} FishReadsEscaped(s: string)
    ensures FishRead(FishEscaped(s) + ['\'']) == Some(s)
  {
    if s == "" {
    } else {
      FishReadsEscaped(s[1..]);
      FishReadsChar(s[0], FishEscaped(s[1..]) + ['\'']);
      Regroup(if s[0] == '\\' || s[0] == '\'' then ['\\', s[0]] else [s[0]], FishEscaped(s[1..]), ['\'']);
      assert [s[0]] + s[1..] == s;
    }
  }

  lemma FishQuoteReadsBack(s: string)
    ensures FishQuote(s)[0] == '\'' && FishRead(FishQuote(s)[1..]) == Some(s)
  {
    FishReadsEscaped(s);
    assert FishQuote(s)[1..] == FishEscaped(s) + ['\''];
  }

  // ----- PowerShell -----

  /** PowerShell takes the typographic single quotes for single quotes as well. */
  predicate Typographic(c: char) {
    '\U{2018}' <= c <= '\U{201B}'
  }

  predicate PwshSingle(c: char) {
    c == '\'' || Typographic(c)
  }

  /** The rest of a verbatim string, which must end the text; a doubled quote stands for one. */
  function PwshRead(t: string): Option<string>
    decreases |t|
  {
    if t == "" then None
    else if PwshSingle(t[0]) then
      if |t| == 1 then Some("")
      else if PwshSingle(t[1]) then Prepend(t[1], PwshRead(t[2..]))
      else None
    else Prepend(t[0], PwshRead(t[1..]))
  }

  function Singles(s: string): nat {
    if s == "" then 0 else (if PwshSingle(s[0]) then 1 else 0) + Singles(s[1..])
  }

  function Curlies(s: string): nat {
    if s == "" then 0 else (if Typographic(s[0]) then 1 else 0) + Curlies(s[1..])
  }

  lemma PwshReadsChar(c: char, rest: string)
    requires rest != "" && !Typographic(c)
    ensures PwshRead((if c == '\'' then ['\'', '\''] else [c]) + rest) == Prepend(c, PwshRead(rest))
  {
    if c == '\'' {
      assert (['\'', '\''] + rest)[2..] == rest;
    } else {
      assert ([c] + rest)[1..] == rest;
    }
  }

  lemma {:induction false} PwshReadsEscaped(s: string)
    requires Curlies(s) == 0
    ensures PwshRead(Replace(s, '\'', ['\'', '\'']) + ['\'']) == Some(s)
  {
    if s == "" {
    } else {
      var escaped := Replace(s[1..], '\'', ['\'', '\'']);
      PwshReadsEscaped(s[1..]);
      PwshReadsChar(s[0], escaped + ['\'']);
      Regroup(if s[0] == '\'' then ['\'', '\''] else [s[0]], escaped, ['\'']);
      assert [s[0]] + s[1..] == s;
    }
  }

  /** In a verbatim string every single quote of the result took two, and the end took one. */
  lemma {:induction false} PwshReadPairs(t: string)
    requires PwshRead(t).Some?
    ensures Singles(t) == 2 * Singles(PwshRead(t).value) + 1
    decreases |t|
  {
    if PwshSingle(t[0]) {
      if |t| == 1 {
        assert t[1..] == "";
      } else {
        PwshReadPairs(t[2..]);
        assert t[1..][1..] == t[2..];
        assert PwshRead(t).value[1..] == PwshRead(t[2..]).value;
      }
    } else {
      PwshReadPairs(t[1..]);
      assert PwshRead(t).value[1..] == PwshRead(t[1..]).value;
    }
  }

  lemma {:induction false} EscapedSingles(s: string)
    ensures Singles(Replace(s, '\'', ['\'', '\'']) + ['\'']) + Curlies(s) == 2 * Singles(s) + 1
  {
    var t := Replace(s, '\'', ['\'', '\'']) + ['\''];
    if s == "" {
      assert t[1..] == "";
    } else {
      EscapedSingles(s[1..]);
      var rest := Replace(s[1..], '\'', ['\'', '\'']) + ['\''];
      if s[0] == '\'' {
        assert t[1..] == ['\''] + rest && t[1..][1..] == rest;
      } else {
        assert t[1..] == rest;
      }
    }
  }

  /** The quoted form reads back exactly when the string has no typographic single quote. */
  lemma PwshQuoteReadsBackIff(s: string)
    ensures PwshRead(PwshQuote(s)[1..]) == Some(s) <==> forall i :: 0 <= i < |s| ==> !Typographic(s[i])
  {
    assert PwshQuote(s)[1..] == Replace(s, '\'', ['\'', '\'']) + ['\''];
    CurliesNone(s);
    if Curlies(s) == 0 {
      PwshReadsEscaped(s);
    }
    if PwshRead(PwshQuote(s)[1..]) == Some(s) {
      PwshReadPairs(PwshQuote(s)[1..]);
      EscapedSingles(s);
    }
  }

  lemma {:induction false} CurliesNone(s: string)
    ensures Curlies(s) == 0 <==> forall i :: 0 <= i < |s| ==> !Typographic(s[i])
  {
    if s == "" {
    } else {
      CurliesNone(s[1..]);
      assert forall i :: 1 <= i < |s| ==> s[i] == s[1..][i - 1];
    }
  }
}
