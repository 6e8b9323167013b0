/** The handful of Go string functions the model needs. */
module Text {
  import opened Wrappers

  // ----- trimming and folding -----

  /** unicode.IsSpace */
  predicate IsSpace(c: char) {
    '\t' <= c <= '\r' || c == ' ' || c == '\U{85}' || c == '\U{A0}' || c == '\U{1680}' ||
    '\U{2000}' <= c <= '\U{200A}' || c == '\U{2028}' || c == '\U{2029}' || c == '\U{202F}' ||
    c == '\U{205F}' || c == '\U{3000}'
  }

  function TrimLeft(s: string): string {
    if s != "" && IsSpace(s[0]) then TrimLeft(s[1..]) else s
  }

  function TrimRight(s: string): string {
    if s != "" && IsSpace(s[|s| - 1]) then TrimRight(s[..|s| - 1]) else s
  }

  /** strings.TrimSpace */
  function Trim(s: string): string {
    TrimRight(TrimLeft(s))
  }

  /** Text without space at either end. */
  predicate Trimmed(s: string) {
    s == "" || (!IsSpace(s[0]) && !IsSpace(s[|s| - 1]))
  }

  lemma {:induction false} TrimRightTrims(s: string)
    ensures TrimRight(s) <= s
    ensures TrimRight(s) == "" || !IsSpace(TrimRight(s)[|TrimRight(s)| - 1])
  {
    if s != "" && IsSpace(s[|s| - 1]) {
      TrimRightTrims(s[..|s| - 1]);
    }
  }

  lemma {:induction false} TrimLeftTrims(s: string)
    ensures TrimLeft(s) == "" || !IsSpace(TrimLeft(s)[0])
  {
    if s != "" && IsSpace(s[0]) {
      TrimLeftTrims(s[1..]);
    }
  }

  /** Trimming leaves trimmed text, and leaves trimmed text alone. */
  lemma TrimTrims(s: string)
    ensures Trimmed(Trim(s))
    ensures Trimmed(s) ==> Trim(s) == s
  {
    TrimLeftTrims(s);
    TrimRightTrims(TrimLeft(s));
  }

  function LowerChar(c: char): char {
    if 'A' <= c <= 'Z' then 'a' + (c - 'A') else c
  }

  /** strings.EqualFold compares these, for ASCII text. */
  function Fold(s: string): string {
    if s == "" then "" else [LowerChar(s[0])] + Fold(s[1..])
  }

  lemma {:induction false} FoldKeepsLength(s: string)
    ensures |Fold(s)| == |s|
  {
    if s == "" {
    } else {
      FoldKeepsLength(s[1..]);
    }
  }

  // ----- cutting, splitting and joining -----

  /** strings.HasSuffix */
  predicate HasSuffix(s: string, suffix: string) {
    |suffix| <= |s| && s[|s| - |suffix|..] == suffix
  }

  /** strings.Cut at the first `c`. */
  function Cut(s: string, c: char): (r: Option<(string, string)>)
    ensures r.Some? ==> s == r.value.0 + [c] + r.value.1 && c !in r.value.0
    ensures r.None? ==> c !in s
  {
    if s == "" then None
    else if s[0] == c then Some(("", s[1..]))
    else match Cut(s[1..], c)
      case Some(p) => Some(([s[0]] + p.0, p.1))
      case None => None
  }

  lemma {:induction false} CutNone(s: string, c: char)
    requires c !in s
    ensures Cut(s, c) == None
  {
    if s == "" {
    } else {
      CutNone(s[1..], c);
    }
  }

  /** Where the text in front has no `c`, that is where it is cut. */
  lemma {:induction false} CutAt(p: string, rest: string, c: char)
    requires c !in p
    ensures Cut(p + [c] + rest, c) == Some((p, rest))
  {
    var s := p + [c] + rest;
    if p != "" {
      CutAt(p[1..], rest, c);
      assert s[1..] == p[1..] + [c] + rest;
      assert [p[0]] + p[1..] == p;
    } else {
      assert s[1..] == rest;
    }
  }

  /** strings.Split at every `c`; always at least one piece. */
  function Split(s: string, c: char): (pieces: seq<string>)
    ensures pieces != []
  {
    if s == "" then [""]
    else
      var rest := Split(s[1..], c);
      if s[0] == c then [""] + rest else [[s[0]] + rest[0]] + rest[1..]
  }

  lemma {:induction false} SplitPieces(s: string, c: char)
    ensures forall i :: 0 <= i < |Split(s, c)| ==> c !in Split(s, c)[i]
  {
    if s == "" {
    } else {
      SplitPieces(s[1..], c);
    }
  }

  /** strings.Join */
  function Join(pieces: seq<string>, c: char): string {
    if pieces == [] then ""
    else if |pieces| == 1 then pieces[0]
    else pieces[0] + [c] + Join(pieces[1..], c)
  }

  lemma {:induction false} SplitCut(p: string, rest: string, c: char)
    requires c !in p
    ensures Split(p, c) == [p]
    ensures Split(p + [c] + rest, c) == [p] + Split(rest, c)
  {
    var s := p + [c] + rest;
    if p == "" {
      assert s[1..] == rest;
    } else {
      SplitCut(p[1..], rest, c);
      assert s[1..] == p[1..] + [c] + rest;
      assert [p[0]] + p[1..] == p;
    }
  }

  lemma {:induction false} JoinSplit(s: string, c: char)
    ensures Join(Split(s, c), c) == s
    decreases |s|
  {
    match Cut(s, c)
    case None => SplitCut(s, "", c);
    case Some((p, r)) =>
      JoinSplit(r, c);
      SplitCut(p, r, c);
  }

  lemma {:induction false} SplitJoin(pieces: seq<string>, c: char)
    requires pieces != [] && forall p :: p in pieces ==> c !in p
    ensures Split(Join(pieces, c), c) == pieces
  {
    if |pieces| == 1 {
      SplitCut(pieces[0], "", c);
    } else {
      SplitJoin(pieces[1..], c);
      SplitCut(pieces[0], Join(pieces[1..], c), c);
    }
  }

  lemma Regroup<T>(x: seq<T>, y: seq<T>, z: seq<T>)
    ensures x + (y + z) == (x + y) + z
  {
  }

  lemma {:induction false} SplitAppend(a: string, b: string, c: char)
    ensures Split(a + [c] + b, c) == Split(a, c) + Split(b, c)
    decreases |a|
  {
    match Cut(a, c)
    case None => SplitCut(a, b, c);
    case Some((p, r)) =>
      SplitAppend(r, b, c);
      SplitCut(p, r, c);
      SplitCut(p, r + [c] + b, c);
      Regroup(p + [c], r, [c] + b);
      Regroup(p + [c], r + [c], b);
      Regroup(r, [c], b);
      Regroup(a, [c], b);
      Regroup([p], Split(r, c), Split(b, c));
  }

  // ----- what trimming and folding do -----

  /** Trimming takes off space at both ends and nothing else. */
  lemma {:induction false} TrimTakesSpace(s: string) returns (a: string, b: string)
    ensures s == a + Trim(s) + b
    ensures forall i :: 0 <= i < |a| ==> IsSpace(a[i])
    ensures forall i :: 0 <= i < |b| ==> IsSpace(b[i])
    decreases |s|
  {
    if s != "" && IsSpace(s[0]) {
      a, b := TrimTakesSpace(s[1..]);
      assert s == [s[0]] + s[1..];
      a := [s[0]] + a;
    } else {
      a := "";
      b := TrimRightTakesSpace(s);
    }
  }

  lemma {:induction false} TrimRightTakesSpace(s: string) returns (b: string)
    ensures s == TrimRight(s) + b
    ensures forall i :: 0 <= i < |b| ==> IsSpace(b[i])
    decreases |s|
  {
    if s != "" && IsSpace(s[|s| - 1]) {
      var front, last := s[..|s| - 1], s[|s| - 1];
      var rest := TrimRightTakesSpace(front);
      b := rest + [last];
      assert s == front + [last] && TrimRight(s) == TrimRight(front);
      Regroup(TrimRight(front), rest, [last]);
    } else {
      b := "";
    }
  }

  /** The same letter, in either case. */
  predicate SameLetter(x: char, y: char) {
    x == y ||
    ('A' <= x <= 'Z' && 'a' <= y <= 'z' && y - x == 'a' - 'A') ||
    ('A' <= y <= 'Z' && 'a' <= x <= 'z' && x - y == 'a' - 'A')
  }

  /** Folding makes texts the same exactly when they are the same but for the case of letters. */
  lemma {:induction false} FoldIff(a: string, b: string)
    ensures Fold(a) == Fold(b) <==> |a| == |b| && forall i :: 0 <= i < |a| ==> SameLetter(a[i], b[i])
    decreases |a|
  {
    FoldKeepsLength(a);
    FoldKeepsLength(b);
    if a == "" || b == "" {
    } else {
      FoldIff(a[1..], b[1..]);
      assert Fold(a) == [LowerChar(a[0])] + Fold(a[1..]) && Fold(b) == [LowerChar(b[0])] + Fold(b[1..]);
      assert Fold(a)[1..] == Fold(a[1..]) && Fold(b)[1..] == Fold(b[1..]);
      assert LowerChar(a[0]) == LowerChar(b[0]) <==> SameLetter(a[0], b[0]);
      if |a| == |b| && forall i :: 0 <= i < |a| ==> SameLetter(a[i], b[i]) {
        forall i | 0 <= i < |a[1..]|
          ensures SameLetter(a[1..][i], b[1..][i])
        {
          assert SameLetter(a[i + 1], b[i + 1]);
        }
      }
      if |a[1..]| == |b[1..]| && forall i :: 0 <= i < |a[1..]| ==> SameLetter(a[1..][i], b[1..][i]) {
        forall i | 1 <= i < |a|
          ensures |a| == |b| && SameLetter(a[i], b[i])
        {
          assert SameLetter(a[1..][i - 1], b[1..][i - 1]);
        }
      }
    }
  }
}
