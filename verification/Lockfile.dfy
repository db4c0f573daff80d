/** `release.lock`: the two image sets an instance knows (the one it runs and
    the one it can go back to), as text and as values, and the proof that what
    is written is what is read back. */
module Lockfile {
  import opened Base
  import opened Text

  datatype ImageSet = ImageSet(version: string, backend: string, frontend: string, appVersion: Option<string>) {

    /** The environment handed to compose; an empty app version counts as none. */
    function ToEnv(): seq<(string, string)> {
      [("PINPOINT_VERSION", version), ("BACKEND_IMAGE", backend), ("FRONTEND_IMAGE", frontend)]
      + if appVersion.Some? && appVersion.value != "" then [("PINPOINT_APP_VERSION", appVersion.value)] else []
    }

    /** What the running app should report as its version. */
    function ExpectedVersion(): string {
      if appVersion.Some? && appVersion.value != "" then appVersion.value else version
    }

    predicate SameImages(other: ImageSet) {
      backend == other.backend && frontend == other.frontend
    }

    predicate WellFormed() {
      version != "" && backend != "" && frontend != "" && appVersion != Some("")
    }

    /** Every value the set puts into the file satisfies `p`. */
    predicate Holds(p: string -> bool) {
      p(version) && p(backend) && p(frontend) && (appVersion.Some? ==> p(appVersion.value))
    }
  }

  datatype LockState = LockState(current: ImageSet, previous: Option<ImageSet>, extra: map<string, string>) {

    predicate WellFormed() {
      && current.WellFormed()
      && (previous.Some? ==> previous.value.WellFormed())
      && forall k :: k in extra ==> IsKey(k) && k !in RESERVED
    }

    predicate Holds(p: string -> bool) {
      && current.Holds(p)
      && (previous.Some? ==> previous.value.Holds(p))
      && forall k :: k in extra ==> p(extra[k])
    }

    /** What `render_lock` checks of every value. */
    predicate Renderable() {
      Holds(IsSafeValue)
    }

    /** No value holds a newline, which `$` in the check above lets through at the end. */
    predicate OneLineValues() {
      Holds(HasNoNewline)
    }
  }

  const RESERVED: set<string> :=
    {"PINPOINT_VERSION", "BACKEND_IMAGE", "FRONTEND_IMAGE", "PINPOINT_APP_VERSION",
     "PREVIOUS_PINPOINT_VERSION", "PREVIOUS_BACKEND_IMAGE", "PREVIOUS_FRONTEND_IMAGE", "PREVIOUS_PINPOINT_APP_VERSION"}

  datatype LockError = Unparseable | MissingKey | UnsafeValue

  // ---- characters --------------------------------------------------------

  predicate IsKeyStart(c: char) {
    'A' <= c <= 'Z' || 'a' <= c <= 'z' || c == '_'
  }

  predicate IsKeyChar(c: char) {
    IsKeyStart(c) || IsDigit(c)
  }

  predicate IsKey(k: string) {
    k != "" && IsKeyStart(k[0]) && forall i :: 0 <= i < |k| ==> IsKeyChar(k[i])
  }

  predicate IsSafeChar(c: char) {
    'A' <= c <= 'Z' || 'a' <= c <= 'z' || '0' <= c <= '9'
    || c == '.' || c == '_' || c == ':' || c == '/' || c == '@' || c == '+' || c == '-'
  }

  predicate AllSafe(v: string) {
    forall i :: 0 <= i < |v| ==> IsSafeChar(v[i])
  }

  /** `^[A-Za-z0-9._:/@+-]*$` under `re.match`: `$` also matches before one final newline. */
  predicate IsSafeValue(v: string) {
    AllSafe(v) || (v != "" && v[|v| - 1] == '\n' && AllSafe(v[..|v| - 1]))
  }

  /** A safe value is any text of these characters, with or without a final newline. */
  predicate OneOfThese(c: char) {
    || c in "ABCDEFGHIJKLMNOPQRSTUVWXYZ" || c in "abcdefghijklmnopqrstuvwxyz"
    || c in "0123456789" || c in "._:/@+-"
  }

  predicate OfSafe(v: string, body: string) {
    (v == body || v == body + "\n") && forall i :: 0 <= i < |body| ==> OneOfThese(body[i])
  }

  lemma SafeValueReads(v: string)
    ensures IsSafeValue(v) <==> exists body :: OfSafe(v, body)
  {
    SafeCharsRead();
    hide IsSafeChar;
    hide OneOfThese;
    if IsSafeValue(v) {
      if AllSafe(v) {
        assert OfSafe(v, v);
      } else {
        assert v == v[..|v| - 1] + "\n";
        assert OfSafe(v, v[..|v| - 1]);
      }
    }
    if body :| OfSafe(v, body) {
      assert v == body + "\n" ==> v[..|v| - 1] == body;
    }
  }

  lemma SafeCharsRead()
    ensures forall c :: IsSafeChar(c) <==> OneOfThese(c)
  {
    assert forall c: char :: 'A' <= c <= 'Z' <==> c in "ABCDEFGHIJKLMNOPQRSTUVWXYZ";
    assert forall c: char :: 'a' <= c <= 'z' <==> c in "abcdefghijklmnopqrstuvwxyz";
    assert forall c: char :: '0' <= c <= '9' <==> c in "0123456789";
  }

  predicate HasNoNewline(v: string) {
    '\n' !in v
  }

  // ---- text to lines -----------------------------------------------------

  function LineLength(text: string): (n: nat)
    ensures n <= |text| && NoBreaks(text[..n])
    ensures n < |text| ==> IsBreak(text[n])
  {
    if text == "" || IsBreak(text[0]) then 0
    else
      var n := 1 + LineLength(text[1..]);
      assert text[..n] == [text[0]] + text[1..][..n - 1];
      n
  }

  function BreakWidth(text: string): (w: nat)
    requires text != ""
    ensures 1 <= w <= |text|
  {
    if |text| >= 2 && text[0] == '\r' && text[1] == '\n' then 2 else 1
  }

  /** `str.splitlines` */
  function SplitLines(text: string): (lines: seq<string>)
    ensures forall i :: 0 <= i < |lines| ==> NoBreaks(lines[i])
    decreases |text|
  {
    if text == "" then []
    else
      var n := LineLength(text);
      if n == |text| then [text]
      else [text[..n]] + SplitLines(text[n + BreakWidth(text[n..])..])
  }

  function Unlines(lines: seq<string>): string {
    if lines == [] then "" else lines[0] + "\n" + Unlines(lines[1..])
  }

  lemma {:induction false} LineLengthOfLine(l: string, rest: string)
    requires NoBreaks(l)
    ensures LineLength(l + "\n" + rest) == |l|
  {
    if l == "" {
      assert (l + "\n" + rest)[0] == '\n';
    } else {
      LineLengthOfLine(l[1..], rest);
      assert (l + "\n" + rest)[1..] == l[1..] + "\n" + rest;
      assert (l + "\n" + rest)[0] == l[0];
    }
  }

  lemma FirstLineSplits(l: string, rest: string)
    requires NoBreaks(l)
    ensures SplitLines(l + "\n" + rest) == [l] + SplitLines(rest)
  {
    var text := l + "\n" + rest;
    LineLengthOfLine(l, rest);
    hide LineLength;
    assert text[|l|..] == "\n" + rest;
    assert text[..|l|] == l && text[|l| + 1..] == rest;
  }

  lemma {:induction false} SplitLinesOfUnlines(lines: seq<string>)
    requires forall i :: 0 <= i < |lines| ==> NoBreaks(lines[i])
    ensures SplitLines(Unlines(lines)) == lines
  {
    if lines == [] {
      assert Unlines(lines) == "";
    } else {
      FirstLineSplits(lines[0], Unlines(lines[1..]));
      SplitLinesOfUnlines(lines[1..]);
      hide SplitLines;
      assert lines == [lines[0]] + lines[1..];
    }
  }

  // ---- one line ----------------------------------------------------------

  datatype Line = Blank | Pair(key: string, value: string) | Bad

  function KeyLength(s: string): (n: nat)
    ensures n <= |s|
    ensures forall i :: 0 <= i < n ==> IsKeyChar(s[i])
    ensures n < |s| ==> !IsKeyChar(s[n])
  {
    if s == "" || !IsKeyChar(s[0]) then 0 else 1 + KeyLength(s[1..])
  }

  function Unquote(v: string): string {
    if |v| >= 2 && v[0] == v[|v| - 1] && (v[0] == '"' || v[0] == '\'') then v[1..|v| - 1] else v
  }

  /** `KEY\s*=\s*(.*?)\s*$` */
  function MatchPair(s: string): Line {
    var n := KeyLength(s);
    if n == 0 || !IsKeyStart(s[0]) then Bad
    else
      var rest := LStrip(s[n..]);
      if rest == "" || rest[0] != '=' then Bad else Pair(s[..n], Unquote(Strip(rest[1..])))
  }

  /** One line of the file. The optional `export` prefix is tried first and
      given back when what follows it is not a pair. */
  function ParseLine(raw: string): Line {
    var s := LStrip(raw);
    if s == "" || s[0] == '#' then Blank
    else if |s| > 6 && s[..6] == "export" && IsSpace(s[6]) && MatchPair(LStrip(s[6..])).Pair?
        then MatchPair(LStrip(s[6..]))
    else MatchPair(s)
  }

  // ---- the whole file ----------------------------------------------------

  type Values = Result<map<string, string>, LockError>

  /** What one more line does to the values read so far. */
  function Accept(r: Values, line: Line): Values {
    if r.Err? then r
    else
      match line
      case Blank => r
      case Bad => Err(Unparseable)
      case Pair(k, v) => Ok(r.value[k := v])
  }

  function Collect(lines: seq<Line>): Values {
    if lines == [] then Ok(map[]) else Accept(Collect(lines[..|lines| - 1]), lines[|lines| - 1])
  }

  function ParseEach(lines: seq<string>): (r: seq<Line>)
    ensures |r| == |lines| && forall i :: 0 <= i < |r| ==> r[i] == ParseLine(lines[i])
  {
    seq(|lines|, i requires 0 <= i < |lines| => ParseLine(lines[i]))
  }

  /** `values.get(k)` is truthy. */
  predicate Has(values: map<string, string>, k: string) {
    k in values && values[k] != ""
  }

  /** The image set under four keys: all of the first three are needed, the last is optional. */
  function ImagesAt(values: map<string, string>, v: string, b: string, f: string, a: string): Option<ImageSet> {
    if Has(values, v) && Has(values, b) && Has(values, f)
    then Some(ImageSet(values[v], values[b], values[f], if Has(values, a) then Some(values[a]) else None))
    else None
  }

  function CurrentIn(values: map<string, string>): Option<ImageSet> {
    ImagesAt(values, "PINPOINT_VERSION", "BACKEND_IMAGE", "FRONTEND_IMAGE", "PINPOINT_APP_VERSION")
  }

  function PreviousIn(values: map<string, string>): Option<ImageSet> {
    ImagesAt(values, "PREVIOUS_PINPOINT_VERSION", "PREVIOUS_BACKEND_IMAGE", "PREVIOUS_FRONTEND_IMAGE",
        "PREVIOUS_PINPOINT_APP_VERSION")
  }

  function ExtraIn(values: map<string, string>): map<string, string> {
    map k | k in values && k !in RESERVED :: values[k]
  }

  function StateOf(values: map<string, string>): Result<LockState, LockError> {
    match CurrentIn(values)
    case None => Err(MissingKey)
    case Some(current) => Ok(LockState(current, PreviousIn(values), ExtraIn(values)))
  }

  /** `read_lock` on the file's text. */
  function Read(text: string): Result<LockState, LockError> {
    match Collect(ParseEach(SplitLines(text)))
    case Err(e) => Err(e)
    case Ok(values) => StateOf(values)
  }

  method Parse(text: string) returns (r: Values)
    ensures r == Collect(ParseEach(SplitLines(text)))
  {
    var values: map<string, string> := map[];
    var lines := SplitLines(text);
    ghost var parsed := ParseEach(lines);
    for i := 0 to |lines|
      invariant Collect(parsed[..i]) == Ok(values)
    {
      CollectOneMore(parsed, i);
      var line := ParseLine(lines[i]);
      match line {
        case Blank =>
        case Bad =>
          CollectStaysBad(parsed, i + 1);
          return Err(Unparseable);
        case Pair(k, v) => values := values[k := v];
      }
    }
    assert parsed[..|lines|] == parsed;
    return Ok(values);
  }

  lemma CollectOneMore(lines: seq<Line>, i: nat)
    requires i < |lines|
    ensures Collect(lines[..i + 1]) == Accept(Collect(lines[..i]), lines[i])
  {
    assert lines[..i + 1][..i] == lines[..i];
  }

  lemma {:induction false} CollectStaysBad(lines: seq<Line>, i: nat)
    requires i <= |lines| && Collect(lines[..i]).Err?
    ensures Collect(lines) == Collect(lines[..i])
    decreases |lines| - i
  {
    if i == |lines| {
      assert lines[..i] == lines;
    } else {
      CollectOneMore(lines, i);
      CollectStaysBad(lines, i + 1);
    }
  }

  // ---- rendering ---------------------------------------------------------

  predicate LeastKey(k: string, keys: set<string>) {
    k in keys && forall x :: x in keys && x != k ==> Before(k, x)
  }

  lemma {:induction false} LeastKeyExists(keys: set<string>)
    requires keys != {}
    ensures exists k :: LeastKey(k, keys)
  {
    var x :| x in keys;
    if keys == {x} {
      assert LeastKey(x, keys);
    } else {
      LeastKeyExists(keys - {x});
      var k :| LeastKey(k, keys - {x});
      BeforeIsTotal(x, k);
      if Before(x, k) {
        forall y | y in keys && y != x ensures Before(x, y) {
          if y != k { BeforeIsTransitive(x, k, y); }
        }
        assert LeastKey(x, keys);
      } else {
        assert LeastKey(k, keys);
      }
    }
  }

  lemma LeastKeyIsUnique(keys: set<string>)
    ensures forall k, l :: LeastKey(k, keys) && LeastKey(l, keys) ==> k == l
  {
    forall k, l | LeastKey(k, keys) && LeastKey(l, keys) ensures k == l {
      if k != l {
        BeforeIsTransitive(k, l, k);
        BeforeIsStrict(k);
      }
    }
  }

  /** `sorted(extra.items())` */
  function SortedItems(m: map<string, string>): (items: seq<(string, string)>)
    ensures forall i :: 0 <= i < |items| ==> items[i].0 in m && m[items[i].0] == items[i].1
    decreases |m|
  {
    if m == map[] then []
    else
      LeastKeyExists(m.Keys);
      LeastKeyIsUnique(m.Keys);
      var k :| k in m.Keys && LeastKey(k, m.Keys);
      assert |(m - {k}).Keys| < |m.Keys|;
      [(k, m[k])] + SortedItems(m - {k})
  }

  function Prefixed(pairs: seq<(string, string)>): (r: seq<(string, string)>)
    ensures |r| == |pairs|
    ensures forall i :: 0 <= i < |r| ==> r[i] == ("PREVIOUS_" + pairs[i].0, pairs[i].1)
  {
    seq(|pairs|, i requires 0 <= i < |pairs| => ("PREVIOUS_" + pairs[i].0, pairs[i].1))
  }

  function Pairs(state: LockState): seq<(string, string)> {
    state.current.ToEnv()
    + (if state.previous.Some? then Prefixed(state.previous.value.ToEnv()) else [])
    + SortedItems(state.extra)
  }

  function Comment(text: string): (line: string)
    ensures ParseLine(line) == Blank
    ensures NoBreaks(text) ==> NoBreaks(line)
  {
    assert LStrip("# " + text) == "# " + text;
    "# " + text
  }

  function HeaderLines(header: string): (lines: seq<string>)
    ensures forall i :: 0 <= i < |lines| ==> ParseLine(lines[i]) == Blank
    ensures NoBreaks(header) ==> forall i :: 0 <= i < |lines| ==> NoBreaks(lines[i])
  {
    NoBreaksInNotice1();
    NoBreaksInNotice2();
    [Comment(NOTICE_1), Comment(NOTICE_2)] + if header != "" then [Comment(header)] else []
  }

  const NOTICE_1 := "Written by " + "pinpoint-updater. " + "Do not edit by hand: " + "the updater " + "rewrites it"
  const NOTICE_2 := "atomically after " + "a verified, " + "health-checked " + "upgrade " + "or rollback."

  lemma NoBreaksInNotice1()
    ensures NoBreaks(NOTICE_1)
  {
    assert NoBreaks("Written by ") && NoBreaks("pinpoint-updater. ") && NoBreaks("Do not edit by hand: ");
    assert NoBreaks("the updater ") && NoBreaks("rewrites it");
  }

  lemma NoBreaksInNotice2()
    ensures NoBreaks(NOTICE_2)
  {
    assert NoBreaks("atomically after ") && NoBreaks("a verified, ") && NoBreaks("health-checked ");
    assert NoBreaks("upgrade ") && NoBreaks("or rollback.");
  }

  function PairLines(pairs: seq<(string, string)>): (r: seq<string>)
    ensures |r| == |pairs|
    ensures forall i :: 0 <= i < |r| ==> r[i] == pairs[i].0 + "=" + pairs[i].1
  {
    seq(|pairs|, i requires 0 <= i < |pairs| => pairs[i].0 + "=" + pairs[i].1)
  }

  function Render(state: LockState, header: string): Result<string, LockError> {
    if forall i :: 0 <= i < |Pairs(state)| ==> IsSafeValue(Pairs(state)[i].1)
    then Ok(Unlines(HeaderLines(header) + PairLines(Pairs(state))))
    else Err(UnsafeValue)
  }

  /** `render_lock`, as the loop that checks and appends one pair at a time. */
  method RenderLock(state: LockState, header: string) returns (r: Result<string, LockError>)
    ensures r == Render(state, header)
  {
    var pairs := Pairs(state);
    r := RenderPairs(pairs, HeaderLines(header));
  }

  method RenderPairs(pairs: seq<(string, string)>, header: seq<string>) returns (r: Result<string, LockError>)
    ensures r == if forall i :: 0 <= i < |pairs| ==> IsSafeValue(pairs[i].1) then Ok(Unlines(header + PairLines(pairs)))
                 else Err(UnsafeValue)
  {
    var lines := header;
    for i := 0 to |pairs|
      invariant lines == header + PairLines(pairs)[..i]
      invariant forall j :: 0 <= j < i ==> IsSafeValue(pairs[j].1)
    {
      if !IsSafeValue(pairs[i].1) {
        return Err(UnsafeValue);
      }
      lines := lines + [pairs[i].0 + "=" + pairs[i].1];
    }
    assert PairLines(pairs)[..|pairs|] == PairLines(pairs);
    return Ok(Unlines(lines));
  }

  // ---- the file, line by line ----------------------------------------------

  /** The lines of one image set, its app version only if it has one. */
  function ImageLines(prefix: string, images: ImageSet): seq<string> {
    [prefix + "PINPOINT_VERSION=" + images.version, prefix + "BACKEND_IMAGE=" + images.backend,
     prefix + "FRONTEND_IMAGE=" + images.frontend]
    + if images.appVersion.Some? && images.appVersion.value != "" then
        [prefix + "PINPOINT_APP_VERSION=" + images.appVersion.value] else []
  }

  function ExtraLines(items: seq<(string, string)>): seq<string> {
    seq(|items|, i requires 0 <= i < |items| => items[i].0 + "=" + items[i].1)
  }

  /** What a rendered lock says, line by line: the notices and the header as
      comments, the running images, the way back, and the extras sorted. */
  function FileLines(state: LockState, header: string): seq<string> {
    ["# " + NOTICE_1, "# " + NOTICE_2] + (if header != "" then ["# " + header] else [])
    + ImageLines("", state.current)
    + (if state.previous.Some? then ImageLines("PREVIOUS_", state.previous.value) else [])
    + ExtraLines(SortedItems(state.extra))
  }

  lemma CurrentLines(images: ImageSet)
    ensures PairLines(images.ToEnv()) == ImageLines("", images)
  {
    assert "" + "PINPOINT_VERSION=" == "PINPOINT_VERSION" + "=" && "" + "BACKEND_IMAGE=" == "BACKEND_IMAGE" + "=";
    assert "" + "FRONTEND_IMAGE=" == "FRONTEND_IMAGE" + "=";
    assert "" + "PINPOINT_APP_VERSION=" == "PINPOINT_APP_VERSION" + "=";
  }

  lemma PreviousLines(images: ImageSet)
    ensures PairLines(Prefixed(images.ToEnv())) == ImageLines("PREVIOUS_", images)
  {
    assert "PREVIOUS_" + "PINPOINT_VERSION=" == "PREVIOUS_" + "PINPOINT_VERSION" + "=";
    assert "PREVIOUS_" + "BACKEND_IMAGE=" == "PREVIOUS_" + "BACKEND_IMAGE" + "=";
    assert "PREVIOUS_" + "FRONTEND_IMAGE=" == "PREVIOUS_" + "FRONTEND_IMAGE" + "=";
    assert "PREVIOUS_" + "PINPOINT_APP_VERSION=" == "PREVIOUS_" + "PINPOINT_APP_VERSION" + "=";
  }

  lemma PairLinesConcat(a: seq<(string, string)>, b: seq<(string, string)>)
    ensures PairLines(a + b) == PairLines(a) + PairLines(b)
  {
  }

  lemma ExtraPairs(extra: seq<(string, string)>)
    ensures PairLines(extra) == ExtraLines(extra)
  {
  }

  /** A lock that can be rendered is rendered as exactly these lines. */
  lemma RendersLines(state: LockState, header: string)
    requires Render(state, header).Ok?
    ensures Render(state, header).value == Unlines(FileLines(state, header))
  {
    hide Unlines;
    hide HeaderLines;
    HeaderIs(header);
    var current, extra := state.current.ToEnv(), SortedItems(state.extra);
    var previous := if state.previous.Some? then Prefixed(state.previous.value.ToEnv()) else [];
    hide ImageSet.ToEnv;
    hide Prefixed;
    hide SortedItems;
    PairLinesConcat(current + previous, extra);
    PairLinesConcat(current, previous);
    ExtraPairs(extra);
    CurrentLines(state.current);
    Assembled(HeaderLines(header), PairLines(current), PairLines(previous), PairLines(extra));
    hide ImageLines;
    hide ExtraLines;
    hide PairLines;
    if state.previous.Some? {
      PreviousLines(state.previous.value);
    } else {
      NoLines();
    }
  }

  lemma HeaderIs(header: string)
    ensures HeaderLines(header) ==
            ["# " + NOTICE_1, "# " + NOTICE_2] + if header != "" then ["# " + header] else []
  {
  }

  lemma Assembled(a: seq<string>, b: seq<string>, c: seq<string>, d: seq<string>)
    ensures a + ((b + c) + d) == a + b + c + d
  {
  }

  lemma NoLines()
    ensures PairLines([]) == []
  {
  }

  /** Which key says what: a lock is read from a file exactly when the first three
      keys have values, and the way back is there exactly when its three do. */
  lemma ReadsKeys(values: map<string, string>)
    ensures StateOf(values).Ok? <==>
              Has(values, "PINPOINT_VERSION") && Has(values, "BACKEND_IMAGE") && Has(values, "FRONTEND_IMAGE")
    ensures StateOf(values).Ok? ==>
              var st := StateOf(values).value;
              && st.current.version == values["PINPOINT_VERSION"] && st.current.backend == values["BACKEND_IMAGE"]
              && st.current.frontend == values["FRONTEND_IMAGE"]
              && st.current.appVersion == ValueOf(values, "PINPOINT_APP_VERSION")
              && (st.previous.Some? <==>
                    && Has(values, "PREVIOUS_PINPOINT_VERSION") && Has(values, "PREVIOUS_BACKEND_IMAGE")
                    && Has(values, "PREVIOUS_FRONTEND_IMAGE"))
              && (st.previous.Some? ==>
                    && st.previous.value.version == values["PREVIOUS_PINPOINT_VERSION"]
                    && st.previous.value.backend == values["PREVIOUS_BACKEND_IMAGE"]
                    && st.previous.value.frontend == values["PREVIOUS_FRONTEND_IMAGE"]
                    && st.previous.value.appVersion == ValueOf(values, "PREVIOUS_PINPOINT_APP_VERSION"))
              && forall k :: k in st.extra <==> k in values && k !in RESERVED
    ensures StateOf(values).Ok? ==>
              var extra := StateOf(values).value.extra; forall k :: k in extra ==> extra[k] == values[k]
  {
  }

  /** A value that is there and not empty. */
  function ValueOf(values: map<string, string>, k: string): Option<string> {
    if k in values && values[k] != "" then Some(values[k]) else None
  }

  // ---- what is written is what is read -----------------------------------

  lemma {:induction false} StripKeeps(v: string)
    requires v != "" ==> !IsSpace(v[0]) && !IsSpace(v[|v| - 1])
    ensures Strip(v) == v
  {
    assert LStrip(v) == v;
    assert RStrip(v) == v;
  }

  lemma {:induction false} RStripKeepsStart(s: string)
    requires s != "" && !IsSpace(s[0])
    ensures RStrip(s) != "" && RStrip(s)[0] == s[0]
  {
    if IsSpace(s[|s| - 1]) {
      RStripKeepsStart(s[..|s| - 1]);
    }
  }

  /** What starts with a tag character is not empty once stripped or normalised. */
  lemma StripKeepsStart(s: string)
    requires s != "" && !IsSpace(s[0])
    ensures Strip(s) != "" && Strip(s)[0] == s[0]
  {
    RStripKeepsStart(s);
  }

  lemma {:induction false} KeyLengthOf(k: string, rest: string)
    requires forall i :: 0 <= i < |k| ==> IsKeyChar(k[i])
    requires rest != "" && !IsKeyChar(rest[0])
    ensures KeyLength(k + rest) == |k|
  {
    if k == "" {
      assert k + rest == rest;
    } else {
      KeyLengthOf(k[1..], rest);
      assert (k + rest)[1..] == k[1..] + rest;
    }
  }

  /** A safe value survives stripping and unquoting. */
  lemma SafeValueIsPlain(v: string)
    requires AllSafe(v)
    ensures Unquote(Strip(v)) == v
  {
    if v != "" {
      assert IsSafeChar(v[0]) && IsSafeChar(v[|v| - 1]);
    }
    StripKeeps(v);
  }

  lemma PairSplits(k: string, v: string)
    requires IsKey(k)
    ensures var s := k + "=" + v; KeyLength(s) == |k| && s[..|k|] == k && s[|k|..] == "=" + v && s[0] == k[0]
  {
    KeyLengthOf(k, "=" + v);
    assert k + "=" + v == k + ("=" + v);
  }

  lemma PairMatches(k: string, v: string)
    requires IsKey(k) && AllSafe(v)
    ensures MatchPair(k + "=" + v) == Pair(k, v)
  {
    PairSplits(k, v);
    SafeValueIsPlain(v);
    var rest := "=" + v;
    assert rest[0] == '=' && rest[1..] == v;
    assert LStrip(rest) == rest;
  }

  lemma NoSpaceInPair(k: string, v: string, i: nat)
    requires IsKey(k) && AllSafe(v) && i <= |k| + |v|
    ensures !IsSpace((k + "=" + v)[i])
  {
    if i < |k| {
      assert IsKeyChar(k[i]);
    } else if i > |k| {
      assert IsSafeChar(v[i - |k| - 1]);
    }
  }

  lemma PairLineParses(k: string, v: string)
    requires IsKey(k) && AllSafe(v)
    ensures ParseLine(k + "=" + v) == Pair(k, v)
  {
    PairMatches(k, v);
    var s := k + "=" + v;
    NoSpaceInPair(k, v, 0);
    if |s| > 6 {
      NoSpaceInPair(k, v, 6);
    }
    assert s[0] == k[0];
    assert LStrip(s) == s;
  }

  predicate AllSpace(s: string) {
    forall i :: 0 <= i < |s| ==> IsSpace(s[i])
  }

  lemma {:induction false} SpaceStrips(space: string, s: string)
    requires AllSpace(space) && s != "" && !IsSpace(s[0])
    ensures LStrip(space + s) == s
  {
    if space == "" {
      assert space + s == s;
    } else {
      SpaceStrips(space[1..], s);
      assert (space + s)[1..] == space[1..] + s;
    }
  }

  lemma PairStartsWithKey(s: string)
    requires MatchPair(s).Pair?
    ensures s != "" && IsKeyStart(s[0]) && !IsSpace(s[0])
  {
  }

  /** A line that is a pair as it stands is never taken for an `export`. */
  lemma PairIsNoExport(s: string)
    requires MatchPair(s).Pair?
    ensures ParseLine(s) == MatchPair(s)
  {
    PairStartsWithKey(s);
    if |s| > 6 && s[..6] == "export" && IsSpace(s[6]) {
      KeyLengthOf(s[..6], s[6..]);
      assert s == s[..6] + s[6..];
      assert LStrip(s[6..])[0] == '=';
      assert !MatchPair(LStrip(s[6..])).Pair?;
    }
  }

  /** A hand-written `export` before a pair, of whatever value and after any white
      space, makes no difference. */
  lemma ExportParses(space: string, pair: string)
    requires space != "" && AllSpace(space) && MatchPair(pair).Pair?
    ensures ParseLine("export" + space + pair) == ParseLine(pair) == MatchPair(pair)
  {
    PairStartsWithKey(pair);
    PairIsNoExport(pair);
    SpaceStrips(space, pair);
    hide MatchPair;
    var word, rest := "export", space + pair;
    var s := word + rest;
    assert s == "export" + space + pair;
    assert s[..6] == word && s[6..] == rest && s[6] == rest[0] == space[0] && s[0] == word[0] == 'e';
    LStripKeeps(s);
    hide LStrip;
  }

  lemma LStripKeeps(s: string)
    requires s != "" && !IsSpace(s[0])
    ensures LStrip(s) == s
  {
  }

  /** `k`, an equals sign with white space around it, and a value, trimmed and
      without its quotes. */
  ghost predicate PairText(s: string, k: string, v: string) {
    exists space, rest :: PairParts(s, k, v, space, rest)
  }

  predicate PairParts(s: string, k: string, v: string, space: string, rest: string) {
    s == k + (space + ("=" + rest)) && IsKey(k) && AllSpace(space) && v == Unquote(Strip(rest))
  }

  lemma MatchedIsPairText(s: string, k: string, v: string)
    requires MatchPair(s) == Pair(k, v)
    ensures PairText(s, k, v)
  {
    var space := LStripTrims(s[KeyLength(s)..]);
    var rest := LStrip(s[KeyLength(s)..])[1..];
    assert LStrip(s[KeyLength(s)..]) == "=" + rest && k == s[..KeyLength(s)];
    hide LStrip;
    hide Strip;
    assert s == k + s[|k|..] && s[|k|..] == space + ("=" + rest);
    assert PairParts(s, k, v, space, rest);
  }

  lemma PairTextMatches(k: string, space: string, rest: string)
    requires IsKey(k) && AllSpace(space)
    ensures MatchPair(k + (space + ("=" + rest))) == Pair(k, Unquote(Strip(rest)))
  {
    var tail := space + ("=" + rest);
    var s := k + tail;
    assert tail[0] == if space == "" then '=' else space[0];
    KeyLengthOf(k, tail);
    SpaceStrips(space, "=" + rest);
    hide LStrip;
    hide Strip;
    hide KeyLength;
    hide Unquote;
    assert s[..|k|] == k && s[|k|..] == tail && s[0] == k[0];
    assert ("=" + rest)[1..] == rest && ("=" + rest)[0] == '=';
  }

  lemma MatchPairIff(s: string, k: string, v: string)
    ensures MatchPair(s) == Pair(k, v) <==> PairText(s, k, v)
  {
    if MatchPair(s) == Pair(k, v) {
      MatchedIsPairText(s, k, v);
    }
    hide MatchPair;
    if space, rest :| PairParts(s, k, v, space, rest) {
      PairTextMatches(k, space, rest);
    }
  }

  /** A pair, alone on its line or after `export`, with white space before it. */
  ghost predicate PairLine(raw: string, k: string, v: string) {
    exists lead, line :: raw == lead + line && AllSpace(lead) &&
      (PairText(line, k, v) || ExportedPair(line, k, v))
  }

  ghost predicate ExportedPair(line: string, k: string, v: string) {
    exists space, pair :: line == "export" + (space + pair) && space != "" && AllSpace(space) && PairText(pair, k, v)
  }

  lemma PairTextStarts(s: string, k: string, v: string)
    requires PairText(s, k, v)
    ensures s != "" && !IsSpace(s[0]) && s[0] != '#'
  {
    MatchPairIff(s, k, v);
    PairStartsWithKey(s);
  }

  /** Which lines are pairs, and of what. */
  lemma PairLineIff(raw: string, k: string, v: string)
    ensures ParseLine(raw) == Pair(k, v) <==> PairLine(raw, k, v)
  {
    hide MatchPair;
    hide PairText;
    hide LStrip;
    if ParseLine(raw) == Pair(k, v) {
      var lead := LStripTrims(raw);
      var line := LStrip(raw);
      MatchPairIff(line, k, v);
      if |line| > 6 && line[..6] == "export" && IsSpace(line[6]) && MatchPair(LStrip(line[6..])).Pair? {
        var space := LStripTrims(line[6..]);
        var pair := LStrip(line[6..]);
        MatchPairIff(pair, k, v);
        PairStartsWithKey(pair);
        assert line == "export" + (space + pair);
        assert ExportedPair(line, k, v);
      }
    }
    if lead, line :| raw == lead + line && AllSpace(lead) && (PairText(line, k, v) || ExportedPair(line, k, v)) {
      if PairText(line, k, v) {
        PairTextStarts(line, k, v);
        MatchPairIff(line, k, v);
        SpaceStrips(lead, line);
        PairIsNoExport(line);
        LStripKeeps(line);
      } else {
        var space, pair :| line == "export" + (space + pair) && space != "" && AllSpace(space) && PairText(pair, k, v);
        MatchPairIff(pair, k, v);
        ExportParses(space, pair);
        assert line == "export" + space + pair && line[0] == "export"[0] == 'e';
        SpaceStrips(lead, line);
        LStripKeeps(line);
      }
    }
  }

  /** Lines without a pair are blank or comments, or else the file is refused. */
  lemma BlankLineIff(raw: string)
    ensures ParseLine(raw) == Blank <==>
            exists lead, rest :: raw == lead + rest && AllSpace(lead) && (rest == "" || rest[0] == '#')
  {
    if ParseLine(raw) == Blank {
      var lead := LStripTrims(raw);
      assert raw == lead + LStrip(raw);
    }
    if lead, rest :| raw == lead + rest && AllSpace(lead) && (rest == "" || rest[0] == '#') {
      if rest == "" {
        assert raw == lead;
        AllSpaceStrips(lead);
      } else {
        SpaceStrips(lead, rest);
      }
    }
  }

  lemma {:induction false} AllSpaceStrips(space: string)
    requires AllSpace(space)
    ensures LStrip(space) == ""
  {
    if space != "" {
      AllSpaceStrips(space[1..]);
    }
  }

  /** Line `i` is the last that gives `k` a value. */
  ghost predicate LastPair(lines: seq<Line>, k: string, i: nat) {
    && i < |lines| && lines[i].Pair? && lines[i].key == k
    && forall j :: i < j < |lines| ==> !(lines[j].Pair? && lines[j].key == k)
  }

  /** One bad line spoils the file; otherwise every key has its last line's value. */
  lemma {:induction false} LastPairWins(lines: seq<Line>)
    ensures Collect(lines).Err? <==> exists i :: 0 <= i < |lines| && lines[i].Bad?
    ensures Collect(lines).Ok? ==> forall k :: k in Collect(lines).value <==> exists i :: LastPair(lines, k, i)
    ensures Collect(lines).Ok? ==>
              forall k, i: nat :: LastPair(lines, k, i) ==> Collect(lines).value[k] == lines[i].value
    decreases |lines|
  {
    if lines != [] {
      var n := |lines| - 1;
      var before, last := lines[..n], lines[n];
      LastPairWins(before);
      if Collect(lines).Ok? {
        forall k, i: nat | LastPair(before, k, i) && !(last.Pair? && last.key == k) ensures LastPair(lines, k, i) {
          assert before[i] == lines[i];
        }
        forall k, i: nat | LastPair(lines, k, i) && i < n ensures LastPair(before, k, i) {
          assert forall j :: 0 <= j < n ==> before[j] == lines[j];
        }
        if last.Pair? {
          assert LastPair(lines, last.key, n);
        }
      }
    }
  }

  /** Quotes of either kind around a value are not part of it. */
  lemma QuotedPairMatches(k: string, v: string, q: char)
    requires IsKey(k) && (q == '"' || q == '\'')
    ensures MatchPair(k + "=" + ([q] + v + [q])) == Pair(k, v)
  {
    var quoted := [q] + v + [q];
    PairSplits(k, quoted);
    StripKeeps(quoted);
    hide Strip;
    hide KeyLength;
    assert quoted[1..|quoted| - 1] == v;
    var rest := "=" + quoted;
    assert rest[0] == '=' && rest[1..] == quoted;
    assert LStrip(rest) == rest;
    assert IsKeyStart(k[0]);
  }

  /** The values a run of pairs leaves behind. */
  function Fold(pairs: seq<(string, string)>): map<string, string> {
    if pairs == [] then map[] else Fold(pairs[..|pairs| - 1])[pairs[|pairs| - 1].0 := pairs[|pairs| - 1].1]
  }

  lemma {:induction false} FoldConcat(a: seq<(string, string)>, b: seq<(string, string)>)
    ensures Fold(a + b) == Fold(a) + Fold(b)
    decreases |b|
  {
    if b == [] {
      assert a + b == a;
    } else {
      var n := |b| - 1;
      FoldConcat(a, b[..n]);
      assert (a + b)[..|a + b| - 1] == a + b[..n];
    }
  }

  lemma {:induction false} FoldSortedItems(m: map<string, string>)
    ensures Fold(SortedItems(m)) == m
    decreases |m|
  {
    if m != map[] {
      var items, k, less := FirstItem(m);
      FoldSortedItems(less);
      FoldConcat([(k, m[k])], SortedItems(less));
      FoldOne(m, k);
      hide SortedItems;
      hide Fold;
    }
  }

  lemma FoldOne(m: map<string, string>, k: string)
    requires k in m
    ensures Fold([(k, m[k])]) + (m - {k}) == m
  {
    assert Fold([(k, m[k])]) == map[k := m[k]];
  }

  /** `sorted`: in code-point order of the keys, each once. */
  lemma {:induction false} ItemsAreSorted(m: map<string, string>)
    ensures var items := SortedItems(m);
      && |items| == |m| && (forall k :: k in m ==> (k, m[k]) in items)
      && forall i, j :: 0 <= i < j < |items| ==> Before(items[i].0, items[j].0)
    decreases |m|
  {
    if m != map[] {
      var items, k, less := FirstItem(m);
      ItemsAreSorted(less);
      hide SortedItems;
      OneMoreInOrder(m, k, less, SortedItems(less));
      hide Before;
    }
  }

  lemma OneMoreInOrder(m: map<string, string>, k: string, less: map<string, string>, rest: seq<(string, string)>)
    requires LeastKey(k, m.Keys) && less == m - {k} && forall x :: x in less ==> (x, less[x]) in rest
    requires forall i :: 0 <= i < |rest| ==> rest[i].0 in less
    requires forall i, j :: 0 <= i < j < |rest| ==> Before(rest[i].0, rest[j].0)
    ensures var items := [(k, m[k])] + rest;
      && (forall x :: x in m ==> (x, m[x]) in items)
      && forall i, j :: 0 <= i < j < |items| ==> Before(items[i].0, items[j].0)
  {
    var items := [(k, m[k])] + rest;
    assert items[0] == (k, m[k]) && forall x :: x in rest ==> x in items;
    assert forall x :: x in m && x != k ==> x in less && less[x] == m[x];
    hide Before;
  }

  lemma FirstItem(m: map<string, string>) returns (items: seq<(string, string)>, k: string, less: map<string, string>)
    requires m != map[]
    ensures LeastKey(k, m.Keys) && items == SortedItems(m) == [(k, m[k])] + SortedItems(less)
    ensures less == m - {k} && |less| == |m| - 1
    ensures forall i :: 0 <= i < |SortedItems(less)| ==> SortedItems(less)[i].0 in less
  {
    items := SortedItems(m);
    k := items[0].0;
    less := m - {k};
    assert less.Keys == m.Keys - {k};
    assert items[1..] == SortedItems(less);
  }

  function AsLines(pairs: seq<(string, string)>): (r: seq<Line>)
    ensures |r| == |pairs| && forall i :: 0 <= i < |r| ==> r[i] == Pair(pairs[i].0, pairs[i].1)
  {
    seq(|pairs|, i requires 0 <= i < |pairs| => Pair(pairs[i].0, pairs[i].1))
  }

  lemma {:induction false} PairsCollect(blanks: seq<Line>, pairs: seq<(string, string)>)
    requires forall i :: 0 <= i < |blanks| ==> blanks[i] == Blank
    ensures Collect(blanks + AsLines(pairs)) == Ok(Fold(pairs))
    decreases |blanks| + |pairs|
  {
    var lines := blanks + AsLines(pairs);
    if pairs != [] {
      PairsCollect(blanks, pairs[..|pairs| - 1]);
      assert lines[..|lines| - 1] == blanks + AsLines(pairs[..|pairs| - 1]);
    } else if blanks != [] {
      PairsCollect(blanks[..|blanks| - 1], pairs);
      assert lines[..|lines| - 1] == blanks[..|blanks| - 1] + AsLines(pairs);
    }
  }

  lemma RenderedLinesParse(pre: seq<string>, pairs: seq<(string, string)>)
    requires forall i :: 0 <= i < |pairs| ==> IsKey(pairs[i].0) && AllSafe(pairs[i].1)
    ensures ParseEach(pre + PairLines(pairs)) == ParseEach(pre) + AsLines(pairs)
  {
    forall i | 0 <= i < |pairs| ensures ParseLine(PairLines(pairs)[i]) == AsLines(pairs)[i] {
      PairLineParses(pairs[i].0, pairs[i].1);
    }
  }

  lemma LineHasNoBreaks(k: string, v: string)
    requires IsKey(k) && AllSafe(v)
    ensures NoBreaks(k + "=" + v)
  {
    forall i | 0 <= i < |k + "=" + v| ensures !IsBreak((k + "=" + v)[i]) {
      NoSpaceInPair(k, v, i);
    }
  }

  lemma RenderedHasNoBreaks(pairs: seq<(string, string)>)
    requires forall i :: 0 <= i < |pairs| ==> IsKey(pairs[i].0) && AllSafe(pairs[i].1)
    ensures forall i :: 0 <= i < |pairs| ==> NoBreaks(PairLines(pairs)[i])
  {
    forall i | 0 <= i < |pairs| ensures NoBreaks(PairLines(pairs)[i]) {
      LineHasNoBreaks(pairs[i].0, pairs[i].1);
    }
  }

  lemma RenderedSplits(a: seq<string>, b: seq<string>)
    requires forall i :: 0 <= i < |a| ==> NoBreaks(a[i])
    requires forall i :: 0 <= i < |b| ==> NoBreaks(b[i])
    ensures SplitLines(Unlines(a + b)) == a + b
  {
    SplitLinesOfUnlines(a + b);
  }

  lemma RenderedCollects(pre: seq<string>, pairs: seq<(string, string)>)
    requires forall i :: 0 <= i < |pre| ==> NoBreaks(pre[i]) && ParseLine(pre[i]) == Blank
    requires forall i :: 0 <= i < |pairs| ==> IsKey(pairs[i].0) && AllSafe(pairs[i].1)
    ensures Collect(ParseEach(SplitLines(Unlines(pre + PairLines(pairs))))) == Ok(Fold(pairs))
  {
    RenderedHasNoBreaks(pairs);
    RenderedSplits(pre, PairLines(pairs));
    RenderedLinesParse(pre, pairs);
    PairsCollect(ParseEach(pre), pairs);
  }

  function CurrentMap(images: ImageSet): map<string, string> {
    map["PINPOINT_VERSION" := images.version, "BACKEND_IMAGE" := images.backend, "FRONTEND_IMAGE" := images.frontend]
    + if images.appVersion.Some? then map["PINPOINT_APP_VERSION" := images.appVersion.value] else map[]
  }

  function PreviousMap(images: ImageSet): map<string, string> {
    map["PREVIOUS_PINPOINT_VERSION" := images.version, "PREVIOUS_BACKEND_IMAGE" := images.backend,
        "PREVIOUS_FRONTEND_IMAGE" := images.frontend]
    + if images.appVersion.Some? then map["PREVIOUS_PINPOINT_APP_VERSION" := images.appVersion.value] else map[]
  }

  lemma FoldEnv(images: ImageSet)
    requires images.WellFormed()
    ensures Fold(images.ToEnv()) == CurrentMap(images)
    ensures Fold(Prefixed(images.ToEnv())) == PreviousMap(images)
  {
    FoldFew(images.ToEnv());
    PreviousNames();
    FoldFew(Prefixed(images.ToEnv()));
  }

  lemma PreviousNames()
    ensures "PREVIOUS_" + "PINPOINT_VERSION" == "PREVIOUS_PINPOINT_VERSION"
    ensures "PREVIOUS_" + "BACKEND_IMAGE" == "PREVIOUS_BACKEND_IMAGE"
    ensures "PREVIOUS_" + "FRONTEND_IMAGE" == "PREVIOUS_FRONTEND_IMAGE"
    ensures "PREVIOUS_" + "PINPOINT_APP_VERSION" == "PREVIOUS_PINPOINT_APP_VERSION"
  {
  }

  lemma FoldFew(p: seq<(string, string)>)
    requires 3 <= |p| <= 4
    ensures var m := map[p[0].0 := p[0].1, p[1].0 := p[1].1, p[2].0 := p[2].1];
            Fold(p) == if |p| == 4 then m[p[3].0 := p[3].1] else m
  {
    assert p[..3][..2] == p[..2] && p[..2][..1] == p[..1] && p[..1][..0] == [];
    assert Fold(p[..1]) == map[p[0].0 := p[0].1];
    assert Fold(p[..2]) == map[p[0].0 := p[0].1, p[1].0 := p[1].1];
    assert Fold(p[..3]) == map[p[0].0 := p[0].1, p[1].0 := p[1].1, p[2].0 := p[2].1];
    if |p| == 3 {
      assert p[..3] == p;
    }
  }

  function ValuesOf(state: LockState): map<string, string> {
    CurrentMap(state.current) + (if state.previous.Some? then PreviousMap(state.previous.value) else map[])
        + state.extra
  }

  lemma FoldPairs(state: LockState)
    requires state.WellFormed()
    ensures Fold(Pairs(state)) == ValuesOf(state)
  {
    FoldEnv(state.current);
    var prev := if state.previous.Some? then Prefixed(state.previous.value.ToEnv()) else [];
    if state.previous.Some? {
      FoldEnv(state.previous.value);
    }
    FoldSortedItems(state.extra);
    FoldConcat(state.current.ToEnv(), prev);
    FoldConcat(state.current.ToEnv() + prev, SortedItems(state.extra));
  }

  lemma CurrentLookup(state: LockState, k: string)
    requires state.WellFormed()
    requires k in {"PINPOINT_VERSION", "BACKEND_IMAGE", "FRONTEND_IMAGE", "PINPOINT_APP_VERSION"}
    ensures k in ValuesOf(state) <==> k in CurrentMap(state.current)
    ensures k in ValuesOf(state) ==> ValuesOf(state)[k] == CurrentMap(state.current)[k]
  {
    hide CurrentMap;
    hide PreviousMap;
    assert |k| <= 16 || |k| == 20;
    assert k in RESERVED;
    if state.previous.Some? {
      PreviousKeysAreLong(state.previous.value);
    }
  }

  lemma PreviousKeysAreLong(images: ImageSet)
    ensures forall k :: k in PreviousMap(images) ==> |k| > 20 && k in RESERVED
  {
  }

  lemma CurrentKeysAreShort(images: ImageSet)
    ensures forall k :: k in CurrentMap(images) ==> |k| <= 20 && k in RESERVED
  {
  }

  lemma PreviousLookup(state: LockState, k: string)
    requires state.WellFormed()
    requires k in {"PREVIOUS_PINPOINT_VERSION", "PREVIOUS_BACKEND_IMAGE", "PREVIOUS_FRONTEND_IMAGE",
             "PREVIOUS_PINPOINT_APP_VERSION"}
    ensures k in ValuesOf(state) <==> state.previous.Some? && k in PreviousMap(state.previous.value)
    ensures k in ValuesOf(state) ==> ValuesOf(state)[k] == PreviousMap(state.previous.value)[k]
  {
    hide CurrentMap;
    hide PreviousMap;
    assert |k| > 20;
    assert k in RESERVED;
    CurrentKeysAreShort(state.current);
  }

  lemma CurrentIsRead(state: LockState)
    requires state.WellFormed()
    ensures CurrentIn(ValuesOf(state)) == Some(state.current)
  {
    CurrentLookup(state, "PINPOINT_VERSION");
    CurrentLookup(state, "BACKEND_IMAGE");
    CurrentLookup(state, "FRONTEND_IMAGE");
    CurrentLookup(state, "PINPOINT_APP_VERSION");
    CurrentNames(state.current);
  }

  lemma CurrentNames(images: ImageSet)
    ensures var m := CurrentMap(images);
            && "PINPOINT_VERSION" in m && m["PINPOINT_VERSION"] == images.version
            && "BACKEND_IMAGE" in m && m["BACKEND_IMAGE"] == images.backend
            && "FRONTEND_IMAGE" in m && m["FRONTEND_IMAGE"] == images.frontend
            && ("PINPOINT_APP_VERSION" in m <==> images.appVersion.Some?)
            && (images.appVersion.Some? ==> m["PINPOINT_APP_VERSION"] == images.appVersion.value)
  {
    assert |"PINPOINT_VERSION"| == 16 && |"BACKEND_IMAGE"| == 13 && |"FRONTEND_IMAGE"| == 14
           && |"PINPOINT_APP_VERSION"| == 20;
  }

  lemma PreviousIsRead(state: LockState)
    requires state.WellFormed()
    ensures PreviousIn(ValuesOf(state)) == state.previous
  {
    PreviousLookup(state, "PREVIOUS_PINPOINT_VERSION");
    PreviousLookup(state, "PREVIOUS_BACKEND_IMAGE");
    PreviousLookup(state, "PREVIOUS_FRONTEND_IMAGE");
    PreviousLookup(state, "PREVIOUS_PINPOINT_APP_VERSION");
    if state.previous.Some? {
      PreviousNamesIn(state.previous.value);
    }
  }

  lemma PreviousNamesIn(images: ImageSet)
    ensures var m := PreviousMap(images);
            && "PREVIOUS_PINPOINT_VERSION" in m && m["PREVIOUS_PINPOINT_VERSION"] == images.version
            && "PREVIOUS_BACKEND_IMAGE" in m && m["PREVIOUS_BACKEND_IMAGE"] == images.backend
            && "PREVIOUS_FRONTEND_IMAGE" in m && m["PREVIOUS_FRONTEND_IMAGE"] == images.frontend
            && ("PREVIOUS_PINPOINT_APP_VERSION" in m <==> images.appVersion.Some?)
            && (images.appVersion.Some? ==> m["PREVIOUS_PINPOINT_APP_VERSION"] == images.appVersion.value)
  {
    assert |"PREVIOUS_PINPOINT_VERSION"| == 25 && |"PREVIOUS_BACKEND_IMAGE"| == 22 && |"PREVIOUS_FRONTEND_IMAGE"| == 23
        && |"PREVIOUS_PINPOINT_APP_VERSION"| == 29;
  }

  lemma ExtraIsRead(state: LockState)
    requires state.WellFormed()
    ensures ExtraIn(ValuesOf(state)) == state.extra
  {
    hide CurrentMap;
    hide PreviousMap;
    var values := ValuesOf(state);
    CurrentKeysAreShort(state.current);
    if state.previous.Some? {
      PreviousKeysAreLong(state.previous.value);
    }
    assert forall k :: k in state.extra ==> k in values && values[k] == state.extra[k] && k !in RESERVED;
  }

  lemma {:induction false} SortedItemsCover(m: map<string, string>, k: string)
    requires k in m
    ensures (k, m[k]) in SortedItems(m)
    decreases |m|
  {
    var items := SortedItems(m);
    var l := items[0].0;
    assert items == [(l, m[l])] + SortedItems(m - {l});
    if k != l {
      assert |(m - {l}).Keys| < |m.Keys|;
      SortedItemsCover(m - {l}, k);
    }
  }

  ghost predicate ValuesHold(pairs: seq<(string, string)>, p: string -> bool) {
    forall i :: 0 <= i < |pairs| ==> p(pairs[i].1)
  }

  lemma EnvHolds(images: ImageSet, p: string -> bool)
    requires images.WellFormed()
    ensures ValuesHold(images.ToEnv(), p) <==> images.Holds(p)
    ensures ValuesHold(Prefixed(images.ToEnv()), p) <==> images.Holds(p)
  {
    var e := images.ToEnv();
    assert e[0].1 == images.version && e[1].1 == images.backend && e[2].1 == images.frontend;
    assert images.appVersion.Some? ==> |e| == 4 && e[3].1 == images.appVersion.value;
    assert forall i :: 0 <= i < |e| ==> Prefixed(e)[i].1 == e[i].1;
    if ValuesHold(Prefixed(e), p) {
      forall i | 0 <= i < |e| ensures p(e[i].1) {
        assert p(Prefixed(e)[i].1);
      }
    }
  }

  lemma ExtraHolds(m: map<string, string>, p: string -> bool)
    ensures ValuesHold(SortedItems(m), p) <==> forall k :: k in m ==> p(m[k])
  {
    if ValuesHold(SortedItems(m), p) {
      forall k | k in m ensures p(m[k]) {
        SortedItemsCover(m, k);
      }
    }
  }

  lemma ValuesHoldConcat(a: seq<(string, string)>, b: seq<(string, string)>, p: string -> bool)
    ensures ValuesHold(a + b, p) <==> ValuesHold(a, p) && ValuesHold(b, p)
  {
    if ValuesHold(a + b, p) {
      forall i | 0 <= i < |a| ensures p(a[i].1) {
        assert p((a + b)[i].1);
      }
      forall i | 0 <= i < |b| ensures p(b[i].1) {
        assert p((a + b)[|a| + i].1);
      }
    }
  }

  /** A property of every written value is a property of the state. */
  lemma PairsHold(state: LockState, p: string -> bool)
    requires state.WellFormed()
    ensures ValuesHold(Pairs(state), p) <==> state.Holds(p)
  {
    var cur := state.current.ToEnv();
    var prev := if state.previous.Some? then Prefixed(state.previous.value.ToEnv()) else [];
    EnvHolds(state.current, p);
    if state.previous.Some? {
      EnvHolds(state.previous.value, p);
    }
    ExtraHolds(state.extra, p);
    ValuesHoldConcat(cur, prev, p);
    ValuesHoldConcat(cur + prev, SortedItems(state.extra), p);
  }

  lemma NamesAreKeys()
    ensures IsKey("PINPOINT_VERSION") && IsKey("BACKEND_IMAGE") && IsKey("FRONTEND_IMAGE")
            && IsKey("PINPOINT_APP_VERSION")
    ensures IsKey("PREVIOUS_")
  {
  }

  lemma PairsAreKeys(state: LockState)
    requires state.WellFormed()
    ensures forall i :: 0 <= i < |Pairs(state)| ==> IsKey(Pairs(state)[i].0)
  {
    NamesAreKeys();
    forall images: ImageSet, i | 0 <= i < |images.ToEnv()|
      ensures IsKey(images.ToEnv()[i].0) && IsKey(Prefixed(images.ToEnv())[i].0)
    {
      var k := images.ToEnv()[i].0;
      assert i == 0 || i == 1 || i == 2 || i == 3;
      assert IsKey(k);
    }
  }

  // ---- whatever is read is clean -----------------------------------------

  lemma {:induction false} StripShortens(s: string)
    requires HasNoNewline(s)
    ensures HasNoNewline(LStrip(s)) && HasNoNewline(RStrip(s))
    decreases |s|
  {
    if s != "" {
      StripShortens(s[1..]);
      StripShortens(s[..|s| - 1]);
    }
  }

  lemma MatchedPairIsClean(s: string)
    requires HasNoNewline(s) && MatchPair(s).Pair?
    ensures IsKey(MatchPair(s).key) && HasNoNewline(MatchPair(s).value)
  {
    var rest := LStrip(s[KeyLength(s)..]);
    StripShortens(s[KeyLength(s)..]);
    StripShortens(rest[1..]);
    StripShortens(LStrip(rest[1..]));
  }

  lemma ParsedLineIsClean(raw: string)
    requires NoBreaks(raw) && ParseLine(raw).Pair?
    ensures IsKey(ParseLine(raw).key) && HasNoNewline(ParseLine(raw).value)
  {
    assert HasNoNewline(raw);
    StripShortens(raw);
    var s := LStrip(raw);
    if MatchPair(s).Pair? {
      MatchedPairIsClean(s);
    }
    if |s| > 6 {
      StripShortens(s[6..]);
      if MatchPair(LStrip(s[6..])).Pair? {
        MatchedPairIsClean(LStrip(s[6..]));
      }
    }
  }

  predicate CleanValues(values: map<string, string>) {
    forall k :: k in values ==> IsKey(k) && HasNoNewline(values[k])
  }

  lemma {:induction false} CollectedIsClean(lines: seq<Line>)
    requires forall i :: 0 <= i < |lines| && lines[i].Pair? ==> IsKey(lines[i].key) && HasNoNewline(lines[i].value)
    ensures Collect(lines).Ok? ==> CleanValues(Collect(lines).value)
  {
    if lines != [] {
      CollectedIsClean(lines[..|lines| - 1]);
    }
  }

  /** A state read from any text at all has every field its file must have,
      only ordinary extra keys, and no newline in a value. */
  lemma ReadIsClean(text: string)
    requires Read(text).Ok?
    ensures Read(text).value.WellFormed() && Read(text).value.OneLineValues()
  {
    var lines := ParseEach(SplitLines(text));
    forall i | 0 <= i < |lines| && lines[i].Pair? ensures IsKey(lines[i].key) && HasNoNewline(lines[i].value) {
      ParsedLineIsClean(SplitLines(text)[i]);
    }
    CollectedIsClean(lines);
  }

  lemma RendersIffSafe(state: LockState, header: string)
    requires state.WellFormed()
    ensures Render(state, header).Ok? <==> state.Renderable()
  {
    PairsHold(state, IsSafeValue);
    assert ValuesHold(Pairs(state), IsSafeValue) <==> Render(state, header).Ok?;
  }

  /** Reading back a rendered state gives that state exactly when no value ends
      in the newline `$` lets through. */
  lemma RoundTrip(state: LockState, header: string)
    requires state.WellFormed() && NoBreaks(header)
    ensures state.Renderable() ==> Render(state, header).Ok?
    ensures state.Renderable() ==> (Read(Render(state, header).value) == Ok(state) <==> state.OneLineValues())
  {
    var pairs := Pairs(state);
    RendersIffSafe(state, header);
    if state.Renderable() {
      PairsHold(state, HasNoNewline);
      if state.OneLineValues() {
        forall i | 0 <= i < |pairs| ensures AllSafe(pairs[i].1) {
          assert IsSafeValue(pairs[i].1) && HasNoNewline(pairs[i].1);
        }
        PairsAreKeys(state);
        RenderedCollects(HeaderLines(header), pairs);
        FoldPairs(state);
        CurrentIsRead(state);
        PreviousIsRead(state);
        ExtraIsRead(state);
      }
      if Read(Render(state, header).value) == Ok(state) {
        ReadIsClean(Render(state, header).value);
      }
    }
  }

  // ---- values that end in a newline ----------------------------------------

  function Chomp(v: string): string {
    if v != "" && v[|v| - 1] == '\n' then v[..|v| - 1] else v
  }

  function ChompImages(images: ImageSet): ImageSet {
    ImageSet(Chomp(images.version), Chomp(images.backend), Chomp(images.frontend),
             if images.appVersion.Some? then Some(Chomp(images.appVersion.value)) else None)
  }

  /** The state without the newlines its images' values end in. */
  function Chomped(state: LockState): LockState {
    var previous := if state.previous.Some? then Some(ChompImages(state.previous.value)) else None;
    LockState(ChompImages(state.current), previous, state.extra)
  }

  lemma ChompSafe(v: string)
    requires IsSafeValue(v)
    ensures AllSafe(Chomp(v)) && (v == Chomp(v) || v == Chomp(v) + "\n")
  {
    if v != "" && v[|v| - 1] == '\n' {
      assert v == v[..|v| - 1] + "\n";
      assert !IsSafeChar(v[|v| - 1]);
    }
  }

  /** The lines a pair takes up once split again. */
  function LineOf(pair: (string, string)): seq<string> {
    if Chomp(pair.1) == pair.1 then [pair.0 + "=" + pair.1] else [pair.0 + "=" + Chomp(pair.1), ""]
  }

  function Spread(pairs: seq<(string, string)>): seq<string> {
    if pairs == [] then [] else Spread(pairs[..|pairs| - 1]) + LineOf(pairs[|pairs| - 1])
  }

  function ChompPairs(pairs: seq<(string, string)>): (r: seq<(string, string)>)
    ensures |r| == |pairs| && forall i :: 0 <= i < |r| ==> r[i] == (pairs[i].0, Chomp(pairs[i].1))
  {
    seq(|pairs|, i requires 0 <= i < |pairs| => (pairs[i].0, Chomp(pairs[i].1)))
  }

  ghost predicate SafePairs(pairs: seq<(string, string)>) {
    forall i :: 0 <= i < |pairs| ==> IsKey(pairs[i].0) && IsSafeValue(pairs[i].1)
  }

  lemma {:induction false} UnlinesConcat(a: seq<string>, b: seq<string>)
    ensures Unlines(a + b) == Unlines(a) + Unlines(b)
  {
    if a == [] {
      assert a + b == b;
    } else {
      UnlinesConcat(a[1..], b);
      assert (a + b)[0] == a[0] && (a + b)[1..] == a[1..] + b;
    }
  }

  lemma LineOfText(pair: (string, string))
    requires IsSafeValue(pair.1)
    ensures Unlines([pair.0 + "=" + pair.1]) == Unlines(LineOf(pair))
  {
    ChompSafe(pair.1);
    var one, two := pair.0 + "=" + pair.1, pair.0 + "=" + Chomp(pair.1);
    assert Unlines([]) == "";
    assert [one][1..] == [] && [two, ""][1..] == [""] && [""][1..] == [];
    assert Unlines([one]) == one + "\n";
    assert Unlines([two, ""]) == two + "\n" + "\n";
  }

  lemma {:induction false} SpreadText(pairs: seq<(string, string)>)
    requires SafePairs(pairs)
    ensures Unlines(PairLines(pairs)) == Unlines(Spread(pairs))
    decreases |pairs|
  {
    if pairs == [] {
      assert PairLines(pairs) == [];
    } else {
      var n := |pairs| - 1;
      SpreadText(pairs[..n]);
      LineOfText(pairs[n]);
      hide LineOf;
      hide IsKey;
      hide IsSafeValue;
      hide Unlines;
      assert PairLines(pairs) == PairLines(pairs[..n]) + [pairs[n].0 + "=" + pairs[n].1];
      UnlinesConcat(PairLines(pairs[..n]), [pairs[n].0 + "=" + pairs[n].1]);
      UnlinesConcat(Spread(pairs[..n]), LineOf(pairs[n]));
    }
  }

  lemma {:induction false} SpreadHasNoBreaks(pairs: seq<(string, string)>)
    requires SafePairs(pairs)
    ensures forall i :: 0 <= i < |Spread(pairs)| ==> NoBreaks(Spread(pairs)[i])
    decreases |pairs|
  {
    if pairs != [] {
      var n := |pairs| - 1;
      SpreadHasNoBreaks(pairs[..n]);
      ChompSafe(pairs[n].1);
      LineHasNoBreaks(pairs[n].0, Chomp(pairs[n].1));
    }
  }

  lemma CollectMore(lines: seq<string>, line: string)
    ensures Collect(ParseEach(lines + [line])) == Accept(Collect(ParseEach(lines)), ParseLine(line))
  {
    var all := ParseEach(lines + [line]);
    assert all[..|all| - 1] == ParseEach(lines);
  }

  lemma {:induction false} SpreadCollects(pre: seq<string>, pairs: seq<(string, string)>)
    requires SafePairs(pairs) && forall i :: 0 <= i < |pre| ==> ParseLine(pre[i]) == Blank
    ensures Collect(ParseEach(pre + Spread(pairs))) == Ok(Fold(ChompPairs(pairs)))
    decreases |pairs|
  {
    hide Collect;
    hide ParseLine;
    hide IsSafeValue;
    hide IsKey;
    if pairs == [] {
      BlanksCollect(pre);
      assert pre + Spread(pairs) == pre;
    } else {
      var n := |pairs| - 1;
      SpreadCollects(pre, pairs[..n]);
      var lines := pre + Spread(pairs[..n]);
      SpreadOne(lines, pairs[n], Fold(ChompPairs(pairs[..n])));
      assert pre + Spread(pairs) == lines + LineOf(pairs[n]);
      hide LineOf;
      hide Spread;
      assert ChompPairs(pairs)[..n] == ChompPairs(pairs[..n]);
    }
  }

  lemma BlanksCollect(lines: seq<string>)
    requires forall i :: 0 <= i < |lines| ==> ParseLine(lines[i]) == Blank
    ensures Collect(ParseEach(lines)) == Ok(map[])
  {
    PairsCollect(ParseEach(lines), []);
    assert ParseEach(lines) + AsLines([]) == ParseEach(lines);
  }

  /** One more pair, with the blank line its value may leave behind. */
  lemma SpreadOne(lines: seq<string>, pair: (string, string), m: map<string, string>)
    requires IsKey(pair.0) && IsSafeValue(pair.1) && Collect(ParseEach(lines)) == Ok(m)
    ensures Collect(ParseEach(lines + LineOf(pair))) == Ok(m[pair.0 := Chomp(pair.1)])
  {
    ChompSafe(pair.1);
    PairLineParses(pair.0, Chomp(pair.1));
    BlankLine();
    hide Collect;
    hide ParseLine;
    hide AllSafe;
    hide IsSafeValue;
    hide IsKey;
    var line := pair.0 + "=" + Chomp(pair.1);
    CollectMore(lines, line);
    CollectMore(lines + [line], "");
    assert lines + [line, ""] == lines + [line] + [""];
  }

  lemma BlankLine()
    ensures ParseLine("") == Blank
  {
  }

  lemma ChompEnv(images: ImageSet)
    requires images.WellFormed() && ChompImages(images).WellFormed()
    ensures ChompPairs(images.ToEnv()) == ChompImages(images).ToEnv()
    ensures ChompPairs(Prefixed(images.ToEnv())) == Prefixed(ChompImages(images).ToEnv())
  {
  }

  lemma ChompPairsConcat(a: seq<(string, string)>, b: seq<(string, string)>)
    ensures ChompPairs(a + b) == ChompPairs(a) + ChompPairs(b)
  {
  }

  lemma ChompState(state: LockState)
    requires state.WellFormed() && Chomped(state).WellFormed() && forall k :: k in state.extra ==>
             HasNoNewline(state.extra[k])
    ensures ChompPairs(Pairs(state)) == Pairs(Chomped(state))
  {
    var cur, extra := state.current.ToEnv(), SortedItems(state.extra);
    var prev := if state.previous.Some? then Prefixed(state.previous.value.ToEnv()) else [];
    ChompEnv(state.current);
    if state.previous.Some? {
      ChompEnv(state.previous.value);
    }
    assert ChompPairs(extra) == extra;
    ChompPairsConcat(cur, prev);
    ChompPairsConcat(cur + prev, extra);
  }

  lemma RenderablePairs(state: LockState)
    requires state.WellFormed() && state.Renderable()
    ensures SafePairs(Pairs(state))
  {
    PairsHold(state, IsSafeValue);
    PairsAreKeys(state);
  }

  /** Whatever newlines the values end in, the file reads back as the same state
      without them. */
  lemma ReadsBackChomped(state: LockState, header: string)
    requires state.WellFormed() && Chomped(state).WellFormed() && state.Renderable() && NoBreaks(header)
    requires forall k :: k in state.extra ==> HasNoNewline(state.extra[k])
    ensures Render(state, header).Ok? && Read(Render(state, header).value) == Ok(Chomped(state))
  {
    var pre, pairs := HeaderLines(header), Pairs(state);
    RendersIffSafe(state, header);
    RenderablePairs(state);
    SpreadText(pairs);
    UnlinesConcat(pre, PairLines(pairs));
    UnlinesConcat(pre, Spread(pairs));
    SpreadHasNoBreaks(pairs);
    RenderedSplits(pre, Spread(pairs));
    SpreadCollects(pre, pairs);
    ChompState(state);
    FoldPairs(Chomped(state));
    CurrentIsRead(Chomped(state));
    PreviousIsRead(Chomped(state));
    ExtraIsRead(Chomped(state));
  }

  /** A header that breaks into a second line leaves a file no one can read. */
  lemma BrokenHeaderIsUnreadable(state: LockState, a: string, b: string)
    requires state.WellFormed() && state.Renderable() && NoBreaks(a) && NoBreaks(b) && ParseLine(b) == Bad
    ensures var header := a + "\n" + b;
            Render(state, header).Ok? && Read(Render(state, header).value) == Err(Unparseable)
  {
    NoBreaksInNotice1();
    NoBreaksInNotice2();
    hide NOTICE_1;
    hide NOTICE_2;
    hide IsSafeValue;
    var header := a + "\n" + b;
    var pairs := Pairs(state);
    RendersIffSafe(state, header);
    RenderablePairs(state);
    hide Pairs;
    SpreadText(pairs);
    SpreadHasNoBreaks(pairs);
    var first := [Comment(NOTICE_1), Comment(NOTICE_2)];
    var broken := first + [Comment(a), b];
    HeaderBreaks(a, b);
    UnlinesConcat(HeaderLines(header), PairLines(pairs));
    UnlinesConcat(broken, Spread(pairs));
    RenderedSplits(broken, Spread(pairs));
    hide ParseLine;
    hide Spread;
    hide Unlines;
    hide SplitLines;
    hide Collect;
    var lines := ParseEach(broken + Spread(pairs));
    assert (broken + Spread(pairs))[3] == b && lines[3] == Bad;
    BadLineStops(lines, 3);
  }

  lemma {:induction false} OnlyUnparseable(lines: seq<Line>)
    ensures Collect(lines).Err? ==> Collect(lines) == Err(Unparseable)
  {
    if lines != [] {
      OnlyUnparseable(lines[..|lines| - 1]);
    }
  }

  lemma {:induction false} BadLineStops(lines: seq<Line>, i: nat)
    requires i < |lines| && lines[i] == Bad
    ensures Collect(lines) == Err(Unparseable)
    decreases |lines|
  {
    var n := |lines| - 1;
    OnlyUnparseable(lines[..n]);
    if i < n {
      BadLineStops(lines[..n], i);
    }
  }

  lemma HeaderBreaks(a: string, b: string)
    ensures Unlines(HeaderLines(a + "\n" + b)) == Unlines([Comment(NOTICE_1), Comment(NOTICE_2), Comment(a), b])
  {
    var c1, c2, header := Comment(NOTICE_1), Comment(NOTICE_2), a + "\n" + b;
    var one, two := [Comment(header)], [Comment(a), b];
    hide ParseLine;
    hide NOTICE_1;
    hide NOTICE_2;
    assert Unlines([]) == "";
    assert one[1..] == [] && two[1..] == [b] && [b][1..] == [];
    assert Unlines(one) == Comment(header) + "\n";
    assert Unlines(two) == Comment(a) + "\n" + (b + "\n");
    assert Comment(header) == Comment(a) + "\n" + b;
    UnlinesConcat([c1, c2], one);
    UnlinesConcat([c1, c2], two);
    assert HeaderLines(header) == [c1, c2] + one && [c1, c2, Comment(a), b] == [c1, c2] + two;
  }

  /** The state a rollback of `state` writes. */
  function Swapped(state: LockState): LockState
    requires state.previous.Some?
  {
    LockState(state.previous.value, Some(state.current), state.extra)
  }

  lemma WrittenIsRead(state: LockState, header: string)
    requires state.WellFormed() && state.OneLineValues() && state.Renderable() && NoBreaks(header)
    ensures Render(state, header).Ok? && Read(Render(state, header).value) == Ok(state)
  {
    RoundTrip(state, header);
  }

  /** The newline the check lets through is lost: a concrete state that is
      accepted for writing and comes back different. */
  lemma TrailingNewlineIsLost(header: string)
    requires NoBreaks(header)
    ensures var state := LockState(ImageSet("v1\n", "b", "f", None), None, map[]);
            state.WellFormed() && Render(state, header).Ok? && Read(Render(state, header).value) != Ok(state)
  {
    var state := LockState(ImageSet("v1\n", "b", "f", None), None, map[]);
    assert state.current.version[2] == '\n';
    assert AllSafe("v1\n"[..2]);
    assert AllSafe("b") && AllSafe("f");
    RoundTrip(state, header);
  }

  /** Through the file: an upgrade's state, rolled back, names the original
      images again, and rolling back twice is the identity. */
  lemma RollbackUndoesUpgrade(text: string, before: LockState, target: ImageSet, h1: string, h2: string, h3: string)
    requires Read(text) == Ok(before)
    requires target.WellFormed() && target.Holds(HasNoNewline)
    requires target.Holds(IsSafeValue) && before.Renderable()
    requires NoBreaks(h1) && NoBreaks(h2) && NoBreaks(h3)
    ensures var upgraded := LockState(target, Some(before.current), before.extra);
            var rolledBack := Swapped(upgraded);
            && Render(upgraded, h1).Ok? && Read(Render(upgraded, h1).value) == Ok(upgraded)
            && Render(rolledBack, h2).Ok? && Read(Render(rolledBack, h2).value) == Ok(rolledBack)
            && rolledBack.current == before.current
            && Render(Swapped(rolledBack), h3).Ok? && Read(Render(Swapped(rolledBack), h3).value) == Ok(upgraded)
  {
    ReadIsClean(text);
    var upgraded := LockState(target, Some(before.current), before.extra);
    WrittenIsRead(upgraded, h1);
    WrittenIsRead(Swapped(upgraded), h2);
    WrittenIsRead(upgraded, h3);
  }
}
