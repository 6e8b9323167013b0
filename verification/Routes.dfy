/**
  The --route flags of the sell commands (cmd/obol/sell.go): comma-separated key=value lists
  in which a piece without '=' belongs to the value before it.
*/
module Routes {
  import opened Wrappers
  import opened Text
  import opened Decimal

  // ----- folding -----

  /** One piece of the flag: a segment of its own, or more of the last one. */
  function Folded1(segments: seq<string>, piece: string): seq<string> {
    if '=' !in piece && segments != [] then segments[..|segments| - 1] + [segments[|segments| - 1] + [','] + piece]
    else segments + [piece]
  }

  function Folded(segments: seq<string>, pieces: seq<string>): seq<string>
    decreases |pieces|
  {
    if pieces == [] then segments else Folded(Folded1(segments, pieces[0]), pieces[1..])
  }

  lemma FoldedStep(segments: seq<string>, pieces: seq<string>, i: nat)
    requires i < |pieces|
    ensures Folded(segments, pieces[i..]) == Folded(Folded1(segments, pieces[i]), pieces[i + 1..])
  {
    assert pieces[i..][1..] == pieces[i + 1..];
  }

  method Segments(val: string) returns (segments: seq<string>)
    ensures segments == Folded([], Split(val, ','))
  {
    segments := [];
    var pieces := Split(val, ',');
    ghost var goal := Folded([], pieces);
    assert pieces[0..] == pieces;
    for i := 0 to |pieces|
      invariant Folded(segments, pieces[i..]) == goal
    {
      FoldedStep(segments, pieces, i);
      segments := Extended(segments, pieces[i]);
    }
    assert pieces[|pieces|..] == [];
  }

  /** The body of its loop. */
  method Extended(segments: seq<string>, seg: string) returns (more: seq<string>)
    ensures more == Folded1(segments, seg)
  {
    if '=' !in seg && |segments| > 0 {
      var last := |segments| - 1;
      more := segments[last := segments[last] + [','] + seg];
    } else {
      more := segments + [seg];
    }
  }

  lemma {:induction false} JoinAppend(xs: seq<string>, y: string)
    requires xs != []
    ensures Join(xs + [y], ',') == Join(xs, ',') + [','] + y
  {
    if |xs| == 1 {
      assert (xs + [y])[1..] == [y];
    } else {
      assert (xs + [y])[1..] == xs[1..] + [y];
      JoinAppend(xs[1..], y);
    }
  }

  lemma JoinGrown(init: seq<string>, last: string, piece: string)
    ensures Join(init + [last + [','] + piece], ',') == Join(init + [last], ',') + [','] + piece
  {
    if init != [] {
      JoinAppend(init, last + [','] + piece);
      JoinAppend(init, last);
      Regroup(Join(init, ',') + [','], last, [','] + piece);
    } else {
      assert init + [last] == [last] && init + [last + [','] + piece] == [last + [','] + piece];
    }
  }

  lemma Folded1Joins(segments: seq<string>, piece: string)
    ensures Folded1(segments, piece) != []
    ensures Join(Folded1(segments, piece), ',') == if segments == [] then piece else Join(segments, ',') + [','] + piece
  {
    if segments == [] {
      assert segments + [piece] == [piece];
    } else if '=' in piece {
      JoinAppend(segments, piece);
    } else {
      GrownJoins(segments[..|segments| - 1], segments[|segments| - 1], segments, piece);
    }
  }

  lemma GrownJoins(init: seq<string>, last: string, segments: seq<string>, piece: string)
    requires segments != [] && init == segments[..|segments| - 1] && last == segments[|segments| - 1]
    ensures Join(init + [last + [','] + piece], ',') == Join(segments, ',') + [','] + piece
  {
    assert segments == init + [last];
    JoinGrown(init, last, piece);
  }

  lemma {:induction false} FoldedJoins(segments: seq<string>, pieces: seq<string>)
    requires segments != []
    ensures Join(Folded(segments, pieces), ',') ==
            if pieces == [] then Join(segments, ',') else Join(segments, ',') + [','] + Join(pieces, ',')
    decreases |pieces|
  {
    if pieces == [] {
    } else {
      Folded1Joins(segments, pieces[0]);
      FoldedJoins(Folded1(segments, pieces[0]), pieces[1..]);
      if |pieces| > 1 {
        Regroup(Join(segments, ',') + [','], pieces[0], [','] + Join(pieces[1..], ','));
      }
    }
  }

  /** Folding loses nothing: the segments rejoined with commas are the flag. */
  lemma SegmentsRejoin(val: string)
    ensures Join(Folded([], Split(val, ',')), ',') == val
  {
    var pieces := Split(val, ',');
    JoinSplit(val, ',');
    Folded1Joins([], pieces[0]);
    FoldedJoins(Folded1([], pieces[0]), pieces[1..]);
  }

  /** A segment that folding keeps whole: '=' in its first piece and in no other. */
  predicate Foldable(item: string) {
    var pieces := Split(item, ',');
    '=' in pieces[0] && forall i :: 1 <= i < |pieces| ==> '=' !in pieces[i]
  }

  lemma {:induction false} FoldMore(segments: seq<string>, last: string, pieces: seq<string>)
    requires forall i :: 0 <= i < |pieces| ==> '=' !in pieces[i]
    ensures Folded(segments + [last], pieces) ==
            segments + [if pieces == [] then last else last + [','] + Join(pieces, ',')]
    decreases |pieces|
  {
    if pieces == [] {
    } else {
      var grown := last + [','] + pieces[0];
      var all := segments + [last];
      assert all[..|all| - 1] == segments && all[|all| - 1] == last;
      assert Folded1(all, pieces[0]) == segments + [grown];
      FoldMore(segments, grown, pieces[1..]);
      if |pieces| > 1 {
        Regroup(last + [','], pieces[0], [',']);
        Regroup(last + [','], pieces[0] + [','], Join(pieces[1..], ','));
      }
    }
  }

  lemma FoldItem(segments: seq<string>, item: string)
    requires Foldable(item)
    ensures Folded(segments, Split(item, ',')) == segments + [item]
  {
    var pieces := Split(item, ',');
    FoldMore(segments, pieces[0], pieces[1..]);
    JoinSplit(item, ',');
  }

  lemma {:induction false} FoldedThen(segments: seq<string>, xs: seq<string>, ys: seq<string>)
    ensures Folded(segments, xs + ys) == Folded(Folded(segments, xs), ys)
    decreases |xs|
  {
    if xs == [] {
      assert xs + ys == ys;
    } else {
      assert (xs + ys)[1..] == xs[1..] + ys;
      FoldedThen(Folded1(segments, xs[0]), xs[1..], ys);
    }
  }

  lemma {:induction false} FoldItems(segments: seq<string>, items: seq<string>)
    requires items != [] && forall i :: 0 <= i < |items| ==> Foldable(items[i])
    ensures Folded(segments, Split(Join(items, ','), ',')) == segments + items
    decreases |items|
  {
    if |items| == 1 {
      FoldItem(segments, items[0]);
      assert items == [items[0]];
    } else {
      var rest := Join(items[1..], ',');
      SplitAppend(items[0], rest, ',');
      FoldedThen(segments, Split(items[0], ','), Split(rest, ','));
      FoldItem(segments, items[0]);
      FoldItems(segments + [items[0]], items[1..]);
      Regroup(segments, [items[0]], items[1..]);
      assert [items[0]] + items[1..] == items;
    }
  }

  // ----- reading segments -----

  const PAID := "paid"
  const FREE := "free"
  const AUTH := "auth"
  const MAX_ROUTES := 128
  const MAX_INT64 := 0x7FFF_FFFF_FFFF_FFFF

  datatype Gate = Paid | Free | Auth

  datatype Draft = Draft(path: Option<string>, methods: Option<seq<Verb>>, gate: Gate,
                         price: Option<string>, freeQuota: Option<nat>, summary: Option<string>)

  const EMPTY := Draft(None, None, Paid, None, None, None)

  datatype Key = PathKey | MethodsKey | GateKey | PriceKey | QuotaKey | SummaryKey

  function KeyOf(text: string): Option<Key> {
    if text == "path" then Some(PathKey)
    else if text == "methods" then Some(MethodsKey)
    else if text == "gate" then Some(GateKey)
    else if text == "price" then Some(PriceKey)
    else if text == "freeQuota" || text == "free-quota" then Some(QuotaKey)
    else if text == "summary" then Some(SummaryKey)
    else None
  }

  function GateOf(text: string): Option<Gate> {
    if text == PAID then Some(Paid) else if text == FREE then Some(Free) else if text == AUTH then Some(Auth) else None
  }

  datatype Verb = Get | Post | Put | Patch | Delete | Head | Options

  function VerbText(m: Verb): string {
    match m
    case Get => "GET"
    case Post => "POST"
    case Put => "PUT"
    case Patch => "PATCH"
    case Delete => "DELETE"
    case Head => "HEAD"
    case Options => "OPTIONS"
  }

  function VerbOf(text: string): Option<Verb> {
    if text == "GET" then Some(Get)
    else if text == "POST" then Some(Post)
    else if text == "PUT" then Some(Put)
    else if text == "PATCH" then Some(Patch)
    else if text == "DELETE" then Some(Delete)
    else if text == "HEAD" then Some(Head)
    else if text == "OPTIONS" then Some(Options)
    else None
  }

  function UpperChar(c: char): char {
    if 'a' <= c <= 'z' then 'A' + (c - 'a') else c
  }

  /** strings.ToUpper, for ASCII text. */
  function Upper(s: string): string {
    if s == "" then "" else [UpperChar(s[0])] + Upper(s[1..])
  }

  function ReadMethods(pieces: seq<string>): Option<seq<Verb>> {
    if pieces == [] then Some([])
    else match VerbOf(Upper(Trim(pieces[0])))
      case None => None
      case Some(m) =>
        match ReadMethods(pieces[1..])
        case None => None
        case Some(rest) => Some([m] + rest)
  }

  /** One key and its value; a later value of a key replaces an earlier one. */
  function Set(validPrice: string -> bool, d: Draft, key: Key, v: string): Result<Draft> {
    match key
    case PathKey => if v != "" && v[0] == '/' then Ok(d.(path := Some(v))) else Err("path must start with /")
    case MethodsKey =>
      (match ReadMethods(Split(v, '|'))
       case Some(ms) => Ok(d.(methods := Some(ms)))
       case None => Err("unknown method"))
    case GateKey =>
      (match GateOf(v)
       case Some(g) => Ok(d.(gate := g))
       case None => Err("gate must be paid, free, or auth"))
    case PriceKey => if validPrice(v) then Ok(d.(price := Some(v))) else Err("invalid price")
    case QuotaKey =>
      var n := ParseInt(v);
      if n.None? || n.value < 0 || n.value > MAX_INT64 then Err("freeQuota must be a non-negative integer")
      else Ok(d.(freeQuota := Some(n.value)))
    case SummaryKey => Ok(d.(summary := Some(v)))
  }

  function Step(validPrice: string -> bool, d: Draft, seg: string): Result<Draft> {
    var (k, v) := match Cut(seg, '=') case Some(p) => p case None => (seg, "");
    match KeyOf(Trim(k))
    case None => Err("unknown key")
    case Some(key) => Set(validPrice, d, key, Trim(v))
  }

  function Read(validPrice: string -> bool, d: Draft, segments: seq<string>): Result<Draft>
    decreases |segments|
  {
    if segments == [] then Ok(d)
    else match Step(validPrice, d, segments[0])
      case Err(e) => Err(e)
      case Ok(next) => Read(validPrice, next, segments[1..])
  }

  /** The checks on a route as a whole. */
  function Checked(d: Draft): Result<Draft> {
    if d.path.None? then Err("path is required")
    else if d.gate != Paid && (d.price.Some? || d.freeQuota.Some?) then
      Err("price and freeQuota only apply to paid routes")
    else Ok(d)
  }

  function ParsedRoute(validPrice: string -> bool, val: string): Result<Draft> {
    match Read(validPrice, EMPTY, Folded([], Split(val, ',')))
    case Err(e) => Err(e)
    case Ok(d) => Checked(d)
  }

  /** The body of the loop over the flags. */
  method ParseRoute(validPrice: string -> bool, val: string) returns (route: Result<Draft>)
    ensures route == ParsedRoute(validPrice, val)
  {
    var segments := Segments(val);
    var d := EMPTY;
    assert segments[0..] == segments;
    for i := 0 to |segments|
      invariant Read(validPrice, d, segments[i..]) == Read(validPrice, EMPTY, segments)
    {
      assert segments[i..][1..] == segments[i + 1..];
      var next := Step(validPrice, d, segments[i]);
      if next.Err? {
        return Err(next.message);
      }
      d := next.value;
    }
    route := Checked(d);
  }

  function Parser(validPrice: string -> bool): string -> Result<Draft> {
    v => ParsedRoute(validPrice, v)
  }

  /** One flag after the other; the first error ends it. */
  function AllOf(parse: string -> Result<Draft>, vals: seq<string>): Result<seq<Draft>> {
    if vals == [] then Ok([])
    else
      var n := |vals| - 1;
      match AllOf(parse, vals[..n])
      case Err(e) => Err(e)
      case Ok(before) =>
        match parse(vals[n])
        case Err(e) => Err(e)
        case Ok(r) => Ok(before + [r])
  }

  function ParsedRoutes(validPrice: string -> bool, vals: seq<string>): Result<seq<Draft>> {
    AllOf(Parser(validPrice), vals)
  }

  /** An error in a prefix of the flags is the error of all of them. */
  lemma {:induction false} FirstError(parse: string -> Result<Draft>, vals: seq<string>, i: nat)
    requires i <= |vals| && AllOf(parse, vals[..i]).Err?
    ensures AllOf(parse, vals) == AllOf(parse, vals[..i])
    decreases |vals| - i
  {
    if i < |vals| {
      assert vals[..i + 1][..i] == vals[..i];
      FirstError(parse, vals, i + 1);
    } else {
      assert vals[..i] == vals;
    }
  }

  predicate AnyPaid(routes: seq<Draft>) {
    routes != [] && (routes[|routes| - 1].gate.Paid? || AnyPaid(routes[..|routes| - 1]))
  }

  /** parseRouteFlags */
  method ParseRouteFlags(validPrice: string -> bool, vals: seq<string>)
      returns (routes: Result<seq<Draft>>, hasPaid: bool)
    ensures |vals| > MAX_ROUTES ==> routes.Err?
    ensures |vals| <= MAX_ROUTES ==> routes == ParsedRoutes(validPrice, vals)
    ensures routes.Ok? ==> (hasPaid <==> exists i :: 0 <= i < |routes.value| && routes.value[i].gate.Paid?)
  {
    hasPaid := false;
    if |vals| > MAX_ROUTES {
      return Err("too many routes"), false;
    }
    var out: seq<Draft> := [];
    for i := 0 to |vals|
      invariant AllOf(Parser(validPrice), vals[..i]) == Ok(out)
      invariant hasPaid == AnyPaid(out)
    {
      assert vals[..i + 1][..i] == vals[..i];
      var r := ParseRoute(validPrice, vals[i]);
      if r.Err? {
        FirstError(Parser(validPrice), vals, i + 1);
        return Err(r.message), false;
      }
      ghost var before := out;
      out := out + [r.value];
      assert out[..|before|] == before;
      if r.value.gate == Paid {
        hasPaid := true;
      }
    }
    assert vals[..|vals|] == vals;
    AnyPaidIff(out);
    routes := Ok(out);
  }

  // ----- printing a route and reading it back -----

  function KeyText(key: Key): string {
    match key
    case PathKey => "path"
    case MethodsKey => "methods"
    case GateKey => "gate"
    case PriceKey => "price"
    case QuotaKey => "freeQuota"
    case SummaryKey => "summary"
  }

  function GateText(g: Gate): string {
    match g
    case Paid => PAID
    case Free => FREE
    case Auth => AUTH
  }

  function Item(key: Key, v: string): string {
    KeyText(key) + ['='] + v
  }

  function Optional(key: Key, v: Option<string>): seq<string> {
    if v.None? then [] else [Item(key, v.value)]
  }

  function VerbTexts(ms: seq<Verb>): seq<string> {
    if ms == [] then [] else [VerbText(ms[0])] + VerbTexts(ms[1..])
  }

  function MethodsText(d: Draft): Option<string> {
    if d.methods.None? then None else Some(Join(VerbTexts(d.methods.value), '|'))
  }

  function QuotaText(d: Draft): Option<string> {
    if d.freeQuota.None? then None else Some(Digits(d.freeQuota.value))
  }

  function Items(d: Draft): seq<string> {
    Optional(PathKey, d.path) + (Optional(MethodsKey, MethodsText(d)) + ([Item(GateKey, GateText(d.gate))] +
    (Optional(PriceKey, d.price) + (Optional(QuotaKey, QuotaText(d)) + Optional(SummaryKey, d.summary)))))
  }

  function Printed(d: Draft): string {
    Join(Items(d), ',')
  }

  /** A value that survives the flag: no space around it, and no '=' in a piece after a comma. */
  predicate PlainValue(v: string) {
    Trimmed(v) && forall i :: 1 <= i < |Split(v, ',')| ==> '=' !in Split(v, ',')[i]
  }

  predicate PlainOption(v: Option<string>) {
    v.Some? ==> PlainValue(v.value)
  }

  /** A route that the checks accept and whose texts survive the flag. */
  predicate Printable(validPrice: string -> bool, d: Draft) {
    Checked(d).Ok? && d.path.value != "" && d.path.value[0] == '/' && PlainOption(d.path) &&
    (d.methods.Some? ==> d.methods.value != []) &&
    (d.price.Some? ==> validPrice(d.price.value)) && PlainOption(d.price) &&
    (d.freeQuota.Some? ==> d.freeQuota.value <= MAX_INT64) &&
    PlainOption(d.summary)
  }

  lemma KeyTextReads(key: Key)
    ensures KeyOf(KeyText(key)) == Some(key)
  {
  }

  lemma KeyTextPlain(key: Key)
    ensures '=' !in KeyText(key) && ',' !in KeyText(key) && Trimmed(KeyText(key))
  {
  }

  lemma StepItem(validPrice: string -> bool, d: Draft, key: Key, v: string)
    requires Trimmed(v)
    ensures Step(validPrice, d, Item(key, v)) == Set(validPrice, d, key, v)
  {
    KeyTextPlain(key);
    KeyTextReads(key);
    CutAt(KeyText(key), v, '=');
    TrimTrims(KeyText(key));
    TrimTrims(v);
  }

  lemma {:induction false} SplitPrefix(p: string, v: string, c: char)
    requires c !in p
    ensures Split(p + v, c) == [p + Split(v, c)[0]] + Split(v, c)[1..]
  {
    if p == "" {
      assert p + v == v && p + Split(v, c)[0] == Split(v, c)[0];
    } else {
      SplitPrefix(p[1..], v, c);
      var first := Split(v, c)[0];
      assert (p + v)[1..] == p[1..] + v && (p + v)[0] == p[0];
      Regroup([p[0]], p[1..], first);
      assert [p[0]] + p[1..] == p;
    }
  }

  lemma ItemFoldable(key: Key, v: string)
    requires PlainValue(v)
    ensures Foldable(Item(key, v))
  {
    KeyTextPlain(key);
    var head := KeyText(key) + ['='];
    SplitPrefix(head, v, ',');
    assert head[|head| - 1] == '=' && '=' in head;
    assert '=' in head + Split(v, ',')[0];
  }

  lemma NoCommaPlain(v: string)
    requires Trimmed(v) && ',' !in v
    ensures PlainValue(v)
  {
    SplitCut(v, "", ',');
  }

  lemma {:induction false} ReadThen(validPrice: string -> bool, d: Draft, xs: seq<string>, ys: seq<string>)
    ensures Read(validPrice, d, xs + ys) ==
            match Read(validPrice, d, xs)
            case Err(e) => Err(e)
            case Ok(next) => Read(validPrice, next, ys)
    decreases |xs|
  {
    if xs == [] {
      assert xs + ys == ys;
    } else {
      assert (xs + ys)[1..] == xs[1..] + ys;
      var next := Step(validPrice, d, xs[0]);
      if next.Ok? {
        ReadThen(validPrice, next.value, xs[1..], ys);
      }
    }
  }

  /** Reading one optional item sets its field. */
  lemma ReadOptional(validPrice: string -> bool, d: Draft, key: Key, v: Option<string>, rest: seq<string>)
    requires v.Some? ==> Trimmed(v.value) && Set(validPrice, d, key, v.value).Ok?
    ensures Read(validPrice, d, Optional(key, v) + rest) ==
            Read(validPrice, if v.None? then d else Set(validPrice, d, key, v.value).value, rest)
  {
    if v.None? {
      assert Optional(key, v) + rest == rest;
    } else {
      StepItem(validPrice, d, key, v.value);
      assert (Optional(key, v) + rest)[1..] == rest;
    }
  }

  predicate Capitals(s: string) {
    forall i :: 0 <= i < |s| ==> 'A' <= s[i] <= 'Z'
  }

  lemma VerbPlain(m: Verb)
    ensures VerbText(m) != "" && Capitals(VerbText(m)) && VerbOf(VerbText(m)) == Some(m)
  {
  }

  lemma {:induction false} UpperUpper(m: string)
    requires Capitals(m)
    ensures Upper(m) == m
  {
    if m == "" {
    } else {
      UpperUpper(m[1..]);
      assert [m[0]] + m[1..] == m;
    }
  }

  lemma CapitalsRead(s: string)
    requires Capitals(s)
    ensures Upper(Trim(s)) == s
  {
    TrimTrims(s);
    UpperUpper(s);
  }

  lemma VerbReads(m: Verb)
    ensures VerbOf(Upper(Trim(VerbText(m)))) == Some(m)
  {
    VerbPlain(m);
    CapitalsRead(VerbText(m));
  }

  lemma {:induction false} VerbsPlain(ms: seq<Verb>)
    ensures |VerbTexts(ms)| == |ms|
    ensures forall i :: 0 <= i < |ms| ==> VerbTexts(ms)[i] != "" && Capitals(VerbTexts(ms)[i])
    ensures ReadMethods(VerbTexts(ms)) == Some(ms)
  {
    if ms == [] {
    } else {
      VerbPlain(ms[0]);
      VerbReads(ms[0]);
      VerbsPlain(ms[1..]);
      assert VerbTexts(ms)[1..] == VerbTexts(ms[1..]);
      assert [ms[0]] + ms[1..] == ms;
    }
  }

  predicate BarsAndCapitals(s: string) {
    forall i :: 0 <= i < |s| ==> 'A' <= s[i] <= 'Z' || s[i] == '|'
  }

  lemma {:induction false} CapitalsJoined(texts: seq<string>)
    requires texts != [] && forall i :: 0 <= i < |texts| ==> texts[i] != "" && Capitals(texts[i])
    ensures Join(texts, '|') != "" && BarsAndCapitals(Join(texts, '|'))
  {
    if |texts| > 1 {
      CapitalsJoined(texts[1..]);
    }
  }

  lemma MethodsReadBack(ms: seq<Verb>)
    requires ms != []
    ensures var text := Join(VerbTexts(ms), '|'); ReadMethods(Split(text, '|')) == Some(ms) && PlainValue(text)
  {
    VerbsPlain(ms);
    CapitalsJoined(VerbTexts(ms));
    SplitJoin(VerbTexts(ms), '|');
    NoCommaPlain(Join(VerbTexts(ms), '|'));
  }

  lemma QuotaReadsBack(n: nat)
    ensures ParseInt(Digits(n)) == Some(n) && PlainValue(Digits(n))
  {
    PrintThenParse(n);
    DigitsParse(n);
    var s := Digits(n);
    assert IsDigit(s[0]) && IsDigit(s[|s| - 1]);
    NoCommaPlain(s);
  }

  lemma GateReadsBack(g: Gate)
    ensures GateOf(GateText(g)) == Some(g) && PlainValue(GateText(g))
  {
    NoCommaPlain(GateText(g));
  }

  ghost predicate AllFoldable(items: seq<string>) {
    forall i :: 0 <= i < |items| ==> Foldable(items[i])
  }

  lemma OptionalFoldable(key: Key, v: Option<string>, rest: seq<string>)
    requires PlainOption(v) && AllFoldable(rest)
    ensures AllFoldable(Optional(key, v) + rest)
  {
    if v.Some? {
      ItemFoldable(key, v.value);
    }
  }

  lemma ItemsFoldable(validPrice: string -> bool, d: Draft)
    requires Printable(validPrice, d)
    ensures AllFoldable(Items(d))
  {
    if d.methods.Some? {
      MethodsReadBack(d.methods.value);
    }
    if d.freeQuota.Some? {
      QuotaReadsBack(d.freeQuota.value);
    }
    GateReadsBack(d.gate);
    var r5 := Optional(SummaryKey, d.summary);
    OptionalFoldable(SummaryKey, d.summary, []);
    assert r5 + [] == r5;
    OptionalFoldable(QuotaKey, QuotaText(d), r5);
    var r4 := Optional(QuotaKey, QuotaText(d)) + r5;
    OptionalFoldable(PriceKey, d.price, r4);
    var r3 := Optional(PriceKey, d.price) + r4;
    OptionalFoldable(GateKey, Some(GateText(d.gate)), r3);
    var r2 := [Item(GateKey, GateText(d.gate))] + r3;
    OptionalFoldable(MethodsKey, MethodsText(d), r2);
    OptionalFoldable(PathKey, d.path, Optional(MethodsKey, MethodsText(d)) + r2);
  }

  lemma ReadPath(validPrice: string -> bool, p: Draft, rest: seq<string>)
    requires Printable(validPrice, p)
    ensures Read(validPrice, EMPTY, Optional(PathKey, p.path) + rest) == Read(validPrice, EMPTY.(path := p.path), rest)
  {
    ReadOptional(validPrice, EMPTY, PathKey, p.path, rest);
  }

  lemma ReadVerbs(validPrice: string -> bool, d: Draft, p: Draft, rest: seq<string>)
    requires Printable(validPrice, p) && d.methods.None?
    ensures Read(validPrice, d, Optional(MethodsKey, MethodsText(p)) + rest) ==
            Read(validPrice, d.(methods := p.methods), rest)
  {
    if p.methods.Some? {
      MethodsReadBack(p.methods.value);
    }
    ReadOptional(validPrice, d, MethodsKey, MethodsText(p), rest);
  }

  lemma ReadGate(validPrice: string -> bool, d: Draft, g: Gate, rest: seq<string>)
    ensures Read(validPrice, d, [Item(GateKey, GateText(g))] + rest) == Read(validPrice, d.(gate := g), rest)
  {
    GateReadsBack(g);
    ReadOptional(validPrice, d, GateKey, Some(GateText(g)), rest);
  }

  lemma ReadPrice(validPrice: string -> bool, d: Draft, p: Draft, rest: seq<string>)
    requires Printable(validPrice, p) && d.price.None?
    ensures Read(validPrice, d, Optional(PriceKey, p.price) + rest) == Read(validPrice, d.(price := p.price), rest)
  {
    ReadOptional(validPrice, d, PriceKey, p.price, rest);
  }

  lemma ReadQuota(validPrice: string -> bool, d: Draft, p: Draft, rest: seq<string>)
    requires Printable(validPrice, p) && d.freeQuota.None?
    ensures Read(validPrice, d, Optional(QuotaKey, QuotaText(p)) + rest) ==
            Read(validPrice, d.(freeQuota := p.freeQuota), rest)
  {
    if p.freeQuota.Some? {
      QuotaReadsBack(p.freeQuota.value);
    }
    ReadOptional(validPrice, d, QuotaKey, QuotaText(p), rest);
  }

  lemma ReadSummary(validPrice: string -> bool, d: Draft, p: Draft)
    requires Printable(validPrice, p) && d.summary.None?
    ensures Read(validPrice, d, Optional(SummaryKey, p.summary)) == Ok(d.(summary := p.summary))
  {
    ReadOptional(validPrice, d, SummaryKey, p.summary, []);
    assert Optional(SummaryKey, p.summary) + [] == Optional(SummaryKey, p.summary);
  }

  lemma ReadItems(validPrice: string -> bool, p: Draft)
    requires Printable(validPrice, p)
    ensures Read(validPrice, EMPTY, Items(p)) == Ok(p)
  {
    var r5 := Optional(SummaryKey, p.summary);
    var r4 := Optional(QuotaKey, QuotaText(p)) + r5;
    var r3 := Optional(PriceKey, p.price) + r4;
    var r2 := [Item(GateKey, GateText(p.gate))] + r3;
    var r1 := Optional(MethodsKey, MethodsText(p)) + r2;
    var d1 := EMPTY.(path := p.path);
    var d2 := d1.(methods := p.methods);
    var d3 := d2.(gate := p.gate);
    var d4 := d3.(price := p.price);
    var d5 := d4.(freeQuota := p.freeQuota);
    ReadPath(validPrice, p, r1);
    ReadVerbs(validPrice, d1, p, r2);
    ReadGate(validPrice, d2, p.gate, r3);
    ReadPrice(validPrice, d3, p, r4);
    ReadQuota(validPrice, d4, p, r5);
    ReadSummary(validPrice, d5, p);
  }

  /** Printing a route and parsing it gives the same route, summaries with commas included. */
  lemma PrintedRouteReadsBack(validPrice: string -> bool, d: Draft)
    requires Printable(validPrice, d)
    ensures ParsedRoute(validPrice, Printed(d)) == Ok(d)
  {
    ItemsFoldable(validPrice, d);
    FoldItems([], Items(d));
    assert [] + Items(d) == Items(d);
    ReadItems(validPrice, d);
  }

  // ----- every accepted flag prints back -----

  /** No '=' behind a comma. */
  predicate NoLateEquals(s: string) {
    forall i, j :: 0 <= i < j < |s| && s[i] == ',' ==> s[j] != '='
  }

  lemma {:induction false} PiecesWithout(s: string, c: char, x: char)
    requires x !in s
    ensures forall i :: 0 <= i < |Split(s, c)| ==> x !in Split(s, c)[i]
  {
    if s == "" {
    } else {
      PiecesWithout(s[1..], c, x);
    }
  }

  lemma PlainWhenNotLate(v: string)
    requires Trimmed(v) && NoLateEquals(v)
    ensures PlainValue(v)
  {
    match Cut(v, ',')
    case None => SplitCut(v, "", ',');
    case Some((p, r)) =>
      SplitCut(p, r, ',');
      assert v[|p|] == ',' && v[|p| + 1..] == r;
      forall k | 0 <= k < |r|
        ensures r[k] != '='
      {
        assert v[|p| + 1 + k] == r[k];
      }
      PiecesWithout(r, ',', '=');
  }

  /** Folding puts no '=' behind a comma. */
  lemma {:induction false} FoldedNotLate(segments: seq<string>, pieces: seq<string>)
    requires forall i :: 0 <= i < |segments| ==> NoLateEquals(segments[i])
    requires forall i :: 0 <= i < |pieces| ==> ',' !in pieces[i]
    ensures forall i :: 0 <= i < |Folded(segments, pieces)| ==> NoLateEquals(Folded(segments, pieces)[i])
    decreases |pieces|
  {
    if pieces == [] {
    } else {
      FoldedNotLate(Folded1(segments, pieces[0]), pieces[1..]);
    }
  }

  lemma {:induction false} TrimIsPart(s: string) returns (i: nat, j: nat)
    ensures i <= j <= |s| && Trim(s) == s[i..j]
    decreases |s|
  {
    if s != "" && IsSpace(s[0]) {
      i, j := TrimIsPart(s[1..]);
      assert s[1..][i..j] == s[i + 1..j + 1];
      i, j := i + 1, j + 1;
    } else {
      TrimRightTrims(s);
      i, j := 0, |TrimRight(s)|;
    }
  }

  lemma PartNotLate(s: string, i: nat, j: nat)
    requires NoLateEquals(s) && i <= j <= |s|
    ensures NoLateEquals(s[i..j])
  {
  }

  /** The value of a segment. */
  lemma ValueIsPlain(seg: string)
    requires NoLateEquals(seg)
    ensures var v := match Cut(seg, '=') case Some(p) => p.1 case None => ""; PlainValue(Trim(v))
  {
    match Cut(seg, '=')
    case None =>
      TrimTrims("");
    case Some((p, v)) =>
      assert v == seg[|p| + 1..|seg|];
      PartNotLate(seg, |p| + 1, |seg|);
      TrimTrims(v);
      var i, j := TrimIsPart(v);
      PartNotLate(v, i, j);
      PlainWhenNotLate(Trim(v));
  }

  /** What holds of a route while its flag is read. */
  predicate PrintableParts(validPrice: string -> bool, d: Draft) {
    (d.path.Some? ==> d.path.value != "" && d.path.value[0] == '/') && PlainOption(d.path) &&
    (d.methods.Some? ==> d.methods.value != []) &&
    (d.price.Some? ==> validPrice(d.price.value)) && PlainOption(d.price) &&
    (d.freeQuota.Some? ==> d.freeQuota.value <= MAX_INT64) &&
    PlainOption(d.summary)
  }

  lemma {:induction false} ReadParts(validPrice: string -> bool, d: Draft, segments: seq<string>)
    requires PrintableParts(validPrice, d)
    requires forall i :: 0 <= i < |segments| ==> NoLateEquals(segments[i])
    ensures Read(validPrice, d, segments).Ok? ==> PrintableParts(validPrice, Read(validPrice, d, segments).value)
    decreases |segments|
  {
    if segments == [] {
    } else {
      StepParts(validPrice, d, segments[0]);
      var next := Step(validPrice, d, segments[0]);
      if next.Ok? {
        ReadParts(validPrice, next.value, segments[1..]);
      }
    }
  }

  lemma StepParts(validPrice: string -> bool, d: Draft, seg: string)
    requires PrintableParts(validPrice, d) && NoLateEquals(seg)
    ensures Step(validPrice, d, seg).Ok? ==> PrintableParts(validPrice, Step(validPrice, d, seg).value)
  {
    ValueIsPlain(seg);
    var (k, v) := match Cut(seg, '=') case Some(p) => p case None => (seg, "");
    var key := KeyOf(Trim(k));
    if key.Some? {
      SetParts(validPrice, d, key.value, Trim(v));
    }
  }

  lemma SetParts(validPrice: string -> bool, d: Draft, key: Key, v: string)
    requires PrintableParts(validPrice, d) && PlainValue(v)
    ensures Set(validPrice, d, key, v).Ok? ==> PrintableParts(validPrice, Set(validPrice, d, key, v).value)
  {
    if key == MethodsKey {
      var pieces := Split(v, '|');
      if ReadMethods(pieces).Some? {
        MethodsNotEmpty(pieces);
      }
    }
  }

  lemma MethodsNotEmpty(pieces: seq<string>)
    requires pieces != [] && ReadMethods(pieces).Some?
    ensures ReadMethods(pieces).value != []
  {
  }

  /** Whatever flag is accepted: the route it gives can be printed, and the print gives that route. */
  lemma AcceptedPrintsBack(validPrice: string -> bool, val: string)
    requires ParsedRoute(validPrice, val).Ok?
    ensures var d := ParsedRoute(validPrice, val).value;
            Printable(validPrice, d) && ParsedRoute(validPrice, Printed(d)) == Ok(d) &&
            d.path.Some? && (d.gate != Paid ==> d.price == None && d.freeQuota == None)
  {
    SplitPieces(val, ',');
    FoldedNotLate([], Split(val, ','));
    ReadParts(validPrice, EMPTY, Folded([], Split(val, ',')));
    PrintedRouteReadsBack(validPrice, ParsedRoute(validPrice, val).value);
  }

  // ----- spelling -----

  /** How the keys are spelled; any other key is refused. */
  lemma KeysAre(text: string)
    ensures KeyOf(text) == Some(PathKey) <==> text == "path"
    ensures KeyOf(text) == Some(MethodsKey) <==> text == "methods"
    ensures KeyOf(text) == Some(GateKey) <==> text == "gate"
    ensures KeyOf(text) == Some(PriceKey) <==> text == "price"
    ensures KeyOf(text) == Some(QuotaKey) <==> text == "freeQuota" || text == "free-quota"
    ensures KeyOf(text) == Some(SummaryKey) <==> text == "summary"
  {
  }

  /** A segment with a key: the text in front of its first '=', and the value behind it, both trimmed. */
  lemma SegmentSets(validPrice: string -> bool, d: Draft, k: string, v: string)
    requires '=' !in k
    ensures Step(validPrice, d, k + ['='] + v) ==
            match KeyOf(Trim(k))
            case None => Err("unknown key")
            case Some(key) => Set(validPrice, d, key, Trim(v))
  {
    CutAt(k, v, '=');
  }

  /** A later value of a key replaces an earlier one. */
  lemma LaterReplaces(validPrice: string -> bool, d: Draft, key: Key, v: string, w: string)
    requires Set(validPrice, d, key, v).Ok?
    ensures Set(validPrice, Set(validPrice, d, key, v).value, key, w) == Set(validPrice, d, key, w)
  {
  }

  lemma {:induction false} AllOfAt(parse: string -> Result<Draft>, vals: seq<string>, i: nat)
    requires AllOf(parse, vals).Ok? && i < |vals|
    ensures |AllOf(parse, vals).value| == |vals|
    ensures parse(vals[i]) == Ok(AllOf(parse, vals).value[i])
    decreases |vals|
  {
    var n := |vals| - 1;
    var front := vals[..n];
    if n == 0 {
      assert front == [];
    } else {
      AllOfAt(parse, front, if i < n then i else 0);
      assert i < n ==> front[i] == vals[i];
    }
  }

  lemma {:induction false} AllOfRefused(parse: string -> Result<Draft>, vals: seq<string>)
    ensures AllOf(parse, vals).Err? <==> exists v :: v in vals && parse(v).Err?
  {
    if vals == [] {
    } else {
      var n := |vals| - 1;
      AllOfRefused(parse, vals[..n]);
      assert vals == vals[..n] + [vals[n]];
    }
  }

  /** When all flags are accepted, each gives its own route, in order. */
  lemma ParsedRoutesAt(validPrice: string -> bool, vals: seq<string>, i: nat)
    requires ParsedRoutes(validPrice, vals).Ok? && i < |vals|
    ensures |ParsedRoutes(validPrice, vals).value| == |vals|
    ensures ParsedRoute(validPrice, vals[i]) == Ok(ParsedRoutes(validPrice, vals).value[i])
  {
    AllOfAt(Parser(validPrice), vals, i);
  }

  /** They are refused exactly when one of them is. */
  lemma RefusedIff(validPrice: string -> bool, vals: seq<string>)
    ensures ParsedRoutes(validPrice, vals).Err? <==> exists v :: v in vals && ParsedRoute(validPrice, v).Err?
  {
    AllOfRefused(Parser(validPrice), vals);
  }

  lemma {:induction false} AnyPaidIff(routes: seq<Draft>)
    ensures AnyPaid(routes) <==> exists i :: 0 <= i < |routes| && routes[i].gate.Paid?
  {
    if routes == [] {
    } else {
      var n := |routes| - 1;
      AnyPaidIff(routes[..n]);
      if i :| 0 <= i < n && routes[i].gate.Paid? {
        assert routes[..n][i].gate.Paid?;
      }
    }
  }

  /** A flag that gives a path only: a paid route without a price, a quota or methods of its own. */
  lemma PathOnly(validPrice: string -> bool, v: string)
    requires PlainValue(v) && v != "" && v[0] == '/'
    ensures ParsedRoute(validPrice, Item(PathKey, v)) == Ok(Draft(Some(v), None, Paid, None, None, None))
  {
    var item := Item(PathKey, v);
    ItemFoldable(PathKey, v);
    FoldItem([], item);
    StepItem(validPrice, EMPTY, PathKey, v);
    assert [] + [item] == [item];
    ReadOne(validPrice, EMPTY, item);
  }

  lemma ReadOne(validPrice: string -> bool, d: Draft, seg: string)
    ensures Read(validPrice, d, [seg]) == Step(validPrice, d, seg)
  {
    assert [seg][1..] == [];
  }
}
