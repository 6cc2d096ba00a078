/** The string-aware balanced-text scanners: extract_json (braces) and
    _extract_json_array (brackets), with a JSON printer as their partner. */
module JsonScanner {
  import opened Wrappers

  /** Which pair of delimiters a scanner counts. */
  datatype Kind = Braces | Brackets

  function Open(k: Kind): char {
    if k.Braces? then '{' else '['
  }

  function Close(k: Kind): char {
    if k.Braces? then '}' else ']'
  }

  datatype ScanError = NoneFound | Unbalanced

  // ---------------------------------------------------------------------
  // Python's str.strip and str.find
  // ---------------------------------------------------------------------

  /** The characters str.strip() removes. */
  predicate IsSpace(c: char) {
    var n := c as int;
    9 <= n <= 13 || 28 <= n <= 32 || n == 0x85 || n == 0xA0 || n == 0x1680
    || 0x2000 <= n <= 0x200A || n == 0x2028 || n == 0x2029 || n == 0x202F
    || n == 0x205F || n == 0x3000
  }

  function StripLeft(s: string): string {
    if s != "" && IsSpace(s[0]) then StripLeft(s[1..]) else s
  }

  function StripRight(s: string): string {
    if s != "" && IsSpace(s[|s| - 1]) then StripRight(s[..|s| - 1]) else s
  }

  function Strip(s: string): string {
    StripRight(StripLeft(s))
  }

  function Find(s: string, c: char): (r: Option<nat>)
    ensures r.Some? ==> r.value < |s| && s[r.value] == c && c !in s[..r.value]
    ensures r.None? ==> c !in s
  {
    if s == "" then None
    else if s[0] == c then Some(0)
    else match Find(s[1..], c)
      case None => None
      case Some(n) => Some(n + 1)
  }

  // ---------------------------------------------------------------------
  // The scanner automaton
  // ---------------------------------------------------------------------

  datatype ScanState = ScanState(depth: int, inString: bool, escape: bool)

  datatype Progress = Finished | Continue(st: ScanState)

  /** One loop iteration. */
  function Step(k: Kind, st: ScanState, ch: char): Progress {
    if st.escape then Continue(st.(escape := false))
    else if ch == '\\' && st.inString then Continue(st.(escape := true))
    else if ch == '"' then Continue(st.(inString := !st.inString))
    else if st.inString then Continue(st)
    else if ch == Open(k) then Continue(st.(depth := st.depth + 1))
    else if ch == Close(k) then
      if st.depth - 1 == 0 then Finished else Continue(st.(depth := st.depth - 1))
    else Continue(st)
  }

  /** Closed(n): the first n characters form the balanced text. */
  datatype Outcome = Closed(length: nat) | Running(st: ScanState)

  function After(n: nat, o: Outcome): Outcome {
    match o
    case Closed(m) => Closed(n + m)
    case Running(_) => o
  }

  function Feed(k: Kind, st: ScanState, s: string): (o: Outcome)
    ensures o.Closed? ==> 1 <= o.length <= |s|
    decreases |s|
  {
    if s == "" then Running(st)
    else match Step(k, st, s[0])
      case Finished => Closed(1)
      case Continue(next) => After(1, Feed(k, next, s[1..]))
  }

  const START := ScanState(0, false, false)

  /** What the scanner answers, as a function of its input. */
  function Extracted(k: Kind, raw: string): Result<string, ScanError> {
    var stripped := Strip(raw);
    match Find(stripped, Open(k))
    case None => Err(NoneFound)
    case Some(start) =>
      match Feed(k, START, stripped[start..])
      case Closed(n) => Ok(stripped[start..][..n])
      case Running(_) => Err(Unbalanced)
  }

  lemma FeedAt(k: Kind, st: ScanState, text: string, i: nat)
    requires i < |text|
    ensures Feed(k, st, text[i..])
         == match Step(k, st, text[i])
            case Finished => Closed(1)
            case Continue(next) => After(1, Feed(k, next, text[i + 1..]))
  {
    assert text[i..][1..] == text[i + 1..];
  }

  /** The character loop, over the text from the first opener on. */
  method ScanText(k: Kind, text: string) returns (r: Result<string, ScanError>)
    ensures r == match Feed(k, START, text)
                 case Closed(n) => Ok(text[..n])
                 case Running(_) => Err(Unbalanced)
  {
    var depth, inString, escape := 0, false, false;
    var i := 0;
    while i < |text|
      invariant i <= |text|
      invariant Feed(k, START, text)
             == After(i, Feed(k, ScanState(depth, inString, escape), text[i..]))
    {
      var ch := text[i];
      ghost var step := Step(k, ScanState(depth, inString, escape), ch);
      FeedAt(k, ScanState(depth, inString, escape), text, i);
      if escape {
        escape := false;
      } else if ch == '\\' && inString {
        escape := true;
      } else if ch == '"' {
        inString := !inString;
      } else if inString {
      } else if ch == Open(k) {
        depth := depth + 1;
      } else if ch == Close(k) {
        depth := depth - 1;
        if depth == 0 {
          assert step == Finished;
          return Ok(text[..i + 1]);
        }
      }
      assert step == Continue(ScanState(depth, inString, escape));
      i := i + 1;
    }
    return Err(Unbalanced);
  }

  method ExtractBalanced(k: Kind, raw: string) returns (r: Result<string, ScanError>)
    ensures r == Extracted(k, raw)
  {
    var stripped := Strip(raw);
    var found := Find(stripped, Open(k));
    if found.None? {
      return Err(NoneFound);
    }
    r := ScanText(k, stripped[found.value..]);
  }

  method ExtractJson(raw: string) returns (r: Result<string, ScanError>)
    ensures r == Extracted(Braces, raw)
  {
    r := ExtractBalanced(Braces, raw);
  }

  method ExtractJsonArray(raw: string) returns (r: Result<string, ScanError>)
    ensures r == Extracted(Brackets, raw)
  {
    r := ExtractBalanced(Brackets, raw);
  }

  // ---------------------------------------------------------------------
  // A JSON printer with escaped strings
  // ---------------------------------------------------------------------

  /** Text that cannot influence either scanner outside a string. */
  predicate Plain(s: string) {
    forall i :: 0 <= i < |s| ==> PlainChar(s[i])
  }

  predicate PlainChar(c: char) {
    c != '"' && c != '\\' && c != '{' && c != '}' && c != '[' && c != ']'
  }

  predicate NumberChar(c: char) {
    '0' <= c <= '9' || c == '+' || c == '-' || c == '.' || c == 'e' || c == 'E'
  }

  type NumberText = s: string | forall i :: 0 <= i < |s| ==> NumberChar(s[i]) witness "0"

  datatype Member = Member(key: string, value: Json)
  datatype Json =
    | Null
    | Bool(b: bool)
    | Num(text: NumberText)
    | Str(s: string)
    | Arr(items: seq<Json>)
    | Obj(members: seq<Member>)

  /** Separators and padding, by nesting level: json.dumps' defaults, its
      compact form and its indented form are all layouts. */
  datatype Layout = Layout(item: nat -> string, key: string, pad: nat -> string)

  ghost predicate PlainLayout(lay: Layout) {
    Plain(lay.key) && forall n: nat :: Plain(lay.item(n)) && Plain(lay.pad(n))
  }

  function HexDigit(n: nat): char
    requires n < 16
  {
    "0123456789abcdef"[n]
  }

  function EscapeChar(c: char): string {
    if c == '"' then "\\\""
    else if c == '\\' then "\\\\"
    else if c == '\n' then "\\n"
    else if c == '\r' then "\\r"
    else if c == '\t' then "\\t"
    else if c < ' ' then "\\u00" + [HexDigit(c as int / 16), HexDigit(c as int % 16)]
    else [c]
  }

  function Escape(s: string): string {
    if s == "" then "" else EscapeChar(s[0]) + Escape(s[1..])
  }

  function Quote(s: string): string {
    "\"" + Escape(s) + "\""
  }

  function Keyword(v: Json): (s: string)
    requires v.Null? || v.Bool? || v.Num?
    ensures Plain(s)
  {
    match v
    case Null => "null"
    case Bool(b) => if b then "true" else "false"
    case Num(text) => text
  }

  function Print(lay: Layout, level: nat, v: Json): string
    decreases v, 1
  {
    match v
    case Str(s) => Quote(s)
    case Arr(items) =>
      if items == [] then "[]"
      else "[" + lay.pad(level + 1) + PrintItems(lay, level + 1, items) + lay.pad(level) + "]"
    case Obj(members) =>
      if members == [] then "{}"
      else "{" + lay.pad(level + 1) + PrintMembers(lay, level + 1, members) + lay.pad(level) + "}"
    case _ => Keyword(v)
  }

  function PrintItems(lay: Layout, level: nat, items: seq<Json>): string
    decreases items, 0
  {
    if items == [] then ""
    else if |items| == 1 then Print(lay, level, items[0])
    else Print(lay, level, items[0]) + lay.item(level) + PrintItems(lay, level, items[1..])
  }

  function PrintMembers(lay: Layout, level: nat, members: seq<Member>): string
    decreases members, 0
  {
    if members == [] then ""
    else
      var first := Quote(members[0].key) + lay.key + Print(lay, level, members[0].value);
      if |members| == 1 then first
      else first + lay.item(level) + PrintMembers(lay, level, members[1..])
  }

  // ---------------------------------------------------------------------
  // Round trip
  // ---------------------------------------------------------------------

  lemma {:induction false} FeedAppend(k: Kind, st: ScanState, a: string, b: string)
    ensures Feed(k, st, a + b)
         == match Feed(k, st, a)
            case Closed(n) => Closed(n)
            case Running(mid) => After(|a|, Feed(k, mid, b))
    decreases |a|
  {
    if a == "" {
      assert a + b == b;
    } else {
      assert (a + b)[1..] == a[1..] + b;
      match Step(k, st, a[0])
      case Finished =>
      case Continue(next) => FeedAppend(k, next, a[1..], b);
    }
  }

  /** The states in which printed text is neutral. */
  predicate Inside(st: ScanState) {
    st.depth >= 1 && !st.inString && !st.escape
  }

  /** s leaves the scanner where it was, whenever it starts inside the text. */
  ghost predicate Neutral(k: Kind, s: string) {
    forall st :: Inside(st) ==> Feed(k, st, s) == Running(st)
  }

  lemma NeutralConcat(k: Kind, a: string, b: string)
    requires Neutral(k, a) && Neutral(k, b)
    ensures Neutral(k, a + b)
  {
    forall st | Inside(st) ensures Feed(k, st, a + b) == Running(st) {
      FeedAppend(k, st, a, b);
    }
  }

  lemma {:induction false} PlainNeutral(k: Kind, s: string)
    requires Plain(s)
    ensures Neutral(k, s)
  {
    if s != "" {
      PlainNeutral(k, s[1..]);
    }
  }

  lemma {:induction false} EscapeStaysInString(k: Kind, st: ScanState, s: string)
    requires st.inString && !st.escape
    ensures Feed(k, st, Escape(s)) == Running(st)
  {
    if s != "" {
      var e := EscapeChar(s[0]);
      EscapeCharStaysInString(k, st, s[0]);
      EscapeStaysInString(k, st, s[1..]);
      FeedAppend(k, st, e, Escape(s[1..]));
    }
  }

  lemma InStringPlain(k: Kind, st: ScanState, s: string)
    requires st.inString && !st.escape
    requires forall i :: 0 <= i < |s| ==> s[i] != '"' && s[i] != '\\'
    ensures Feed(k, st, s) == Running(st)
  {
    if s != "" {
      InStringPlain(k, st, s[1..]);
    }
  }

  lemma EscapeCharStaysInString(k: Kind, st: ScanState, c: char)
    requires st.inString && !st.escape
    ensures Feed(k, st, EscapeChar(c)) == Running(st)
  {
    var e := EscapeChar(c);
    if e[0] == '\\' {
      var esc := st.(escape := true);
      assert Feed(k, esc, e[1..]) == After(1, Feed(k, st, e[1..][1..]));
      InStringPlain(k, st, e[1..][1..]);
    } else {
      InStringPlain(k, st, e);
    }
  }

  lemma QuoteNeutral(k: Kind, s: string)
    ensures Neutral(k, Quote(s))
  {
    forall st | Inside(st) ensures Feed(k, st, Quote(s)) == Running(st) {
      var within := st.(inString := true);
      EscapeStaysInString(k, within, s);
      FeedAppend(k, within, Escape(s), "\"");
      assert Quote(s)[1..] == Escape(s) + "\"";
      assert Feed(k, within, "\"") == Running(st) by {
        assert "\""[1..] == "";
      }
    }
  }

  /** A neutral body between delimiters is neutral again. */
  lemma WrapNeutral(k: Kind, delims: Kind, body: string)
    requires Neutral(k, body)
    ensures Neutral(k, [Open(delims)] + body + [Close(delims)])
  {
    var s := [Open(delims)] + body + [Close(delims)];
    forall st | Inside(st) ensures Feed(k, st, s) == Running(st) {
      WrapFeed(k, delims, st, body);
    }
  }

  lemma WrapFeed(k: Kind, delims: Kind, st: ScanState, body: string)
    requires Neutral(k, body)
    requires !st.inString && !st.escape && st.depth >= 0
    requires st.depth == 0 ==> k == delims
    ensures Feed(k, st, [Open(delims)] + body + [Close(delims)])
         == if st.depth == 0 then Closed(|body| + 2) else Running(st)
  {
    var inner := if k == delims then st.(depth := st.depth + 1) else st;
    var tail := [Close(delims)];
    assert ([Open(delims)] + body + tail)[1..] == body + tail;
    FeedAppend(k, inner, body, tail);
    assert tail[1..] == "";
  }

  lemma {:induction false} PrintNeutral(k: Kind, lay: Layout, level: nat, v: Json)
    requires PlainLayout(lay)
    ensures Neutral(k, Print(lay, level, v))
    decreases v, 1
  {
    if v.Arr? || v.Obj? {
      BodyNeutral(k, lay, level, v);
      WrapNeutral(k, if v.Arr? then Brackets else Braces, Body(lay, level, v));
    } else if v.Str? {
      QuoteNeutral(k, v.s);
    } else {
      PlainNeutral(k, Keyword(v));
    }
  }

  /** What a printed container holds between its delimiters. */
  function Body(lay: Layout, level: nat, v: Json): (b: string)
    requires v.Arr? || v.Obj?
    ensures v.Arr? ==> Print(lay, level, v) == [Open(Brackets)] + b + [Close(Brackets)]
    ensures v.Obj? ==> Print(lay, level, v) == [Open(Braces)] + b + [Close(Braces)]
  {
    if v == Arr([]) || v == Obj([]) then ""
    else if v.Arr? then lay.pad(level + 1) + PrintItems(lay, level + 1, v.items) + lay.pad(level)
    else lay.pad(level + 1) + PrintMembers(lay, level + 1, v.members) + lay.pad(level)
  }

  lemma {:induction false} BodyNeutral(k: Kind, lay: Layout, level: nat, v: Json)
    requires PlainLayout(lay) && (v.Arr? || v.Obj?)
    ensures Neutral(k, Body(lay, level, v))
    decreases v, 0
  {
    PlainNeutral(k, lay.pad(level + 1));
    PlainNeutral(k, lay.pad(level));
    var inner;
    if v.Arr? {
      ItemsNeutral(k, lay, level + 1, v.items);
      inner := PrintItems(lay, level + 1, v.items);
    } else {
      MembersNeutral(k, lay, level + 1, v.members);
      inner := PrintMembers(lay, level + 1, v.members);
    }
    NeutralConcat(k, lay.pad(level + 1), inner);
    NeutralConcat(k, lay.pad(level + 1) + inner, lay.pad(level));
  }

  lemma {:induction false} ItemsNeutral(k: Kind, lay: Layout, level: nat, items: seq<Json>)
    requires PlainLayout(lay)
    ensures Neutral(k, PrintItems(lay, level, items))
    decreases items, 2
  {
    if items != [] {
      var first := Print(lay, level, items[0]);
      PrintNeutral(k, lay, level, items[0]);
      if |items| > 1 {
        PlainNeutral(k, lay.item(level));
        ItemsNeutral(k, lay, level, items[1..]);
        NeutralConcat(k, first, lay.item(level));
        NeutralConcat(k, first + lay.item(level), PrintItems(lay, level, items[1..]));
      }
    }
  }

  lemma {:induction false} MembersNeutral(k: Kind, lay: Layout, level: nat, members: seq<Member>)
    requires PlainLayout(lay)
    ensures Neutral(k, PrintMembers(lay, level, members))
    decreases members, 2
  {
    if members != [] {
      var key, value := Quote(members[0].key), Print(lay, level, members[0].value);
      QuoteNeutral(k, members[0].key);
      PlainNeutral(k, lay.key);
      PrintNeutral(k, lay, level, members[0].value);
      NeutralConcat(k, key, lay.key);
      NeutralConcat(k, key + lay.key, value);
      if |members| > 1 {
        var first := key + lay.key + value;
        PlainNeutral(k, lay.item(level));
        MembersNeutral(k, lay, level, members[1..]);
        NeutralConcat(k, first, lay.item(level));
        NeutralConcat(k, first + lay.item(level), PrintMembers(lay, level, members[1..]));
      }
    }
  }

  /** The values a scanner of kind k is meant for. */
  predicate Matches(k: Kind, v: Json) {
    if k.Braces? then v.Obj? else v.Arr?
  }

  lemma PrintedCloses(k: Kind, lay: Layout, level: nat, v: Json)
    requires PlainLayout(lay) && Matches(k, v)
    ensures var t := Print(lay, level, v);
      |t| >= 2 && t[0] == Open(k) && t[|t| - 1] == Close(k) && Feed(k, START, t) == Closed(|t|)
  {
    BodyNeutral(k, lay, level, v);
    WrapFeed(k, k, START, Body(lay, level, v));
  }

  lemma {:induction false} StripLeftOf(p: string, t: string)
    requires t != "" && !IsSpace(t[0])
    ensures StripLeft(p + t) == StripLeft(p) + t
  {
    if p == "" {
      assert p + t == t;
    } else {
      assert (p + t)[1..] == p[1..] + t;
      StripLeftOf(p[1..], t);
    }
  }

  lemma {:induction false} StripRightOf(t: string, s: string)
    requires t != "" && !IsSpace(t[|t| - 1])
    ensures StripRight(t + s) == t + StripRight(s)
  {
    if s == "" {
      assert t + s == t;
    } else if IsSpace(s[|s| - 1]) {
      assert (t + s)[..|t + s| - 1] == t + s[..|s| - 1];
      StripRightOf(t, s[..|s| - 1]);
    }
  }

  lemma StripLeftKeepsOut(p: string, c: char)
    requires c !in p
    ensures c !in StripLeft(p)
  {
  }

  lemma {:induction false} FindAfter(p: string, t: string, c: char)
    requires c !in p && t != "" && t[0] == c
    ensures Find(p + t, c) == Some(|p|)
  {
    if p == "" {
      assert p + t == t;
    } else {
      assert (p + t)[1..] == p[1..] + t;
      FindAfter(p[1..], t, c);
    }
  }

  lemma Assoc(a: string, b: string, c: string)
    ensures a + (b + c) == (a + b) + c
  {
  }

  lemma StripAfterPrefix(p: string, t: string)
    requires t != "" && !IsSpace(t[0])
    ensures StripRight(t) != "" && StripRight(t)[0] == t[0]
    ensures Strip(p + t) == StripLeft(p) + StripRight(t)
  {
    var q, c, rest := StripLeft(p), [t[0]], t[1..];
    assert t == c + rest;
    StripRightOf(c, rest);
    StripLeftOf(p, t);
    calc {
      Strip(p + t);
      StripRight(q + t);
      { Assoc(q, c, rest); }
      StripRight((q + c) + rest);
      { StripRightOf(q + c, rest); }
      (q + c) + StripRight(rest);
      { Assoc(q, c, StripRight(rest)); }
      q + StripRight(t);
    }
  }

  /** How the scanner reads a prefix without openers followed by text. */
  lemma ExtractedAfterPrefix(k: Kind, prefix: string, t: string)
    requires Open(k) !in prefix && t != "" && t[0] == Open(k)
    ensures StripRight(t) != "" && StripRight(t)[0] == t[0]
    ensures Extracted(k, prefix + t)
         == match Feed(k, START, StripRight(t))
            case Closed(n) => Ok(StripRight(t)[..n])
            case Running(_) => Err(Unbalanced)
  {
    StripAfterPrefix(prefix, t);
    StripLeftKeepsOut(prefix, Open(k));
    FindAfter(StripLeft(prefix), StripRight(t), Open(k));
    assert (StripLeft(prefix) + StripRight(t))[|StripLeft(prefix)|..] == StripRight(t);
  }

  lemma PrintedExtracted(k: Kind, lay: Layout, level: nat, prefix: string, v: Json, suffix: string)
    requires PlainLayout(lay) && Matches(k, v) && Open(k) !in prefix
    ensures Extracted(k, prefix + (Print(lay, level, v) + suffix)) == Ok(Print(lay, level, v))
  {
    var t := Print(lay, level, v);
    PrintedCloses(k, lay, level, v);
    ExtractedAfterPrefix(k, prefix, t + suffix);
    StripRightOf(t, suffix);
    FeedAppend(k, START, t, StripRight(suffix));
    assert (t + StripRight(suffix))[..|t|] == t;
  }

  /** Whatever surrounds it, a printed value comes back exactly. */
  lemma RoundTrip(k: Kind, lay: Layout, prefix: string, v: Json, suffix: string)
    requires PlainLayout(lay) && Matches(k, v) && Open(k) !in prefix
    ensures Extracted(k, prefix + Print(lay, 0, v) + suffix) == Ok(Print(lay, 0, v))
  {
    PrintedExtracted(k, lay, 0, prefix, v, suffix);
    assert prefix + (Print(lay, 0, v) + suffix) == prefix + Print(lay, 0, v) + suffix;
  }

  lemma {:induction false} StripRightIsPrefix(s: string)
    ensures StripRight(s) <= s
  {
    if s != "" && IsSpace(s[|s| - 1]) {
      StripRightIsPrefix(s[..|s| - 1]);
    }
  }

  /** Truncated output is always reported: no proper prefix is accepted. */
  lemma TruncatedRejected(k: Kind, lay: Layout, prefix: string, v: Json, n: nat)
    requires PlainLayout(lay) && Matches(k, v) && Open(k) !in prefix
    requires n < |Print(lay, 0, v)|
    ensures Extracted(k, prefix + Print(lay, 0, v)[..n])
         == Err(if n == 0 then NoneFound else Unbalanced)
  {
    var t := Print(lay, 0, v);
    var cut := t[..n];
    PrintedCloses(k, lay, 0, v);
    if n == 0 {
      assert prefix + cut == prefix;
      StripLeftKeepsOut(prefix, Open(k));
      StripRightIsPrefix(StripLeft(prefix));
    } else {
      ExtractedAfterPrefix(k, prefix, cut);
      var u := StripRight(cut);
      StripRightIsPrefix(cut);
      assert t == u + t[|u|..];
      FeedAppend(k, START, u, t[|u|..]);
    }
  }

  /** Why arrays need their own scanner: on a printed array whose first item
      is an object, the brace scanner answers that item alone. */
  lemma BraceScannerDropsItems(lay: Layout, prefix: string, items: seq<Json>, suffix: string)
    requires PlainLayout(lay) && '{' !in prefix
    requires |items| > 0 && items[0].Obj?
    ensures Extracted(Braces, prefix + Print(lay, 0, Arr(items)) + suffix) == Ok(Print(lay, 1, items[0]))
  {
    var first, pad := Print(lay, 1, items[0]), lay.pad(1);
    var more := if |items| == 1 then "" else lay.item(1) + PrintItems(lay, 1, items[1..]);
    PrintItemsCons(lay, items);
    PrintedExtracted(Braces, lay, 1, prefix + ("[" + pad), items[0], more + (lay.pad(0) + "]") + suffix);
    Regroup(prefix, "[" + pad, first, more, lay.pad(0) + "]", suffix);
    Assoc("[" + pad + (first + more), lay.pad(0), "]");
  }

  lemma PrintItemsCons(lay: Layout, items: seq<Json>)
    requires |items| > 0
    ensures PrintItems(lay, 1, items)
         == Print(lay, 1, items[0]) + if |items| == 1 then "" else lay.item(1) + PrintItems(lay, 1, items[1..])
  {
    if |items| > 1 {
      Assoc(Print(lay, 1, items[0]), lay.item(1), PrintItems(lay, 1, items[1..]));
    }
  }

  lemma Regroup(prefix: string, lead: string, first: string, more: string, tail: string, suffix: string)
    ensures prefix + (lead + (first + more) + tail) + suffix
         == (prefix + lead) + (first + ((more + tail) + suffix))
  {
  }

  // ---------------------------------------------------------------------
  // What is extracted from any text at all
  // ---------------------------------------------------------------------

  /** Where a reader of s stands at its end: outside string literals, inside
      one, or inside one just after a backslash. */
  datatype Place = Outside | Quoted | Escaped

  function PlaceAfter(s: string): Place {
    if s == "" then Outside
    else
      var c := s[|s| - 1];
      match PlaceAfter(s[..|s| - 1])
      case Escaped => Quoted
      case Quoted => if c == '\\' then Escaped else if c == '"' then Outside else Quoted
      case Outside => if c == '"' then Quoted else Outside
  }

  /** Openers minus closers outside string literals. */
  function Balance(k: Kind, s: string): int {
    if s == "" then 0
    else
      var c, init := s[|s| - 1], s[..|s| - 1];
      Balance(k, init)
      + if !PlaceAfter(init).Outside? then 0 else if c == Open(k) then 1 else if c == Close(k) then -1 else 0
  }

  /** Every nonempty prefix shorter than n leaves something open. */
  ghost predicate OpenUpTo(k: Kind, s: string, n: nat)
    requires n <= |s| + 1
  {
    forall m :: 0 < m < n ==> Balance(k, s[..m]) >= 1
  }

  /** t opens with an opener and is closed by its last character, no sooner. */
  ghost predicate Matched(k: Kind, t: string) {
    t != "" && t[0] == Open(k) && Balance(k, t) == 0 && OpenUpTo(k, t, |t|)
  }

  lemma OneMoreChar(k: Kind, init: string, c: char)
    ensures Balance(k, init + [c]) == Balance(k, init)
      + if !PlaceAfter(init).Outside? then 0 else if c == Open(k) then 1 else if c == Close(k) then -1 else 0
    ensures PlaceAfter(init + [c]) == match PlaceAfter(init)
      case Escaped => Quoted
      case Quoted => if c == '\\' then Escaped else if c == '"' then Outside else Quoted
      case Outside => if c == '"' then Quoted else Outside
  {
    assert (init + [c])[..|init|] == init;
  }

  /** Prefixes are open in a text as they are in any longer one. */
  lemma OpenInPrefix(k: Kind, s: string, q: string, n: nat)
    requires n <= |s| + 1
    ensures OpenUpTo(k, s + q, n) <==> OpenUpTo(k, s, n)
  {
    forall m | 0 < m < n
      ensures (s + q)[..m] == s[..m]
    {
    }
    hide Balance;
  }

  lemma OpenMore(k: Kind, s: string)
    ensures OpenUpTo(k, s, |s| + 1) <==> OpenUpTo(k, s, |s|) && (s == "" || Balance(k, s) >= 1)
  {
    assert s[..|s|] == s;
    hide Balance;
  }

  /** The automaton's depth is the balance, and its flags are the place. */
  lemma {:induction false} FeedTells(k: Kind, s: string)
    requires s != "" && s[0] == Open(k)
    ensures match Feed(k, START, s)
      case Closed(n) => n <= |s| && Balance(k, s[..n]) == 0 && OpenUpTo(k, s, n)
      case Running(st) =>
        st == ScanState(Balance(k, s), !PlaceAfter(s).Outside?, PlaceAfter(s).Escaped?) && OpenUpTo(k, s, |s| + 1)
  {
    hide Feed, Balance, PlaceAfter, OpenUpTo;
    var init, c := s[..|s| - 1], s[|s| - 1];
    assert s == init + [c] && s[..|s|] == s;
    FeedAppend(k, START, init, [c]);
    FeedOne(k, c);
    OneMoreChar(k, init, c);
    OpenInPrefix(k, init, [c], |init| + 1);
    OpenMore(k, s);
    OpenMore(k, init);
    if init == "" {
      NothingRead(k);
    } else {
      FeedTells(k, init);
      match Feed(k, START, init)
      case Closed(n) =>
        OpenInPrefix(k, init, [c], n);
        assert s[..n] == init[..n];
      case Running(_) =>
    }
  }

  lemma NothingRead(k: Kind)
    ensures Feed(k, START, "") == Running(START) && Balance(k, "") == 0 && PlaceAfter("").Outside? && OpenUpTo(k, "", 1)
  {
  }

  lemma FeedOne(k: Kind, c: char)
    ensures forall st :: Feed(k, st, [c]) == match Step(k, st, c)
      case Finished => Closed(1)
      case Continue(next) => Running(next)
  {
    assert [c][1..] == "";
  }

  /** The first opener splits a text in one way only. */
  lemma FirstOpener(k: Kind, s: string, p: string, rest: string)
    requires s == p + rest && Open(k) !in p && rest != "" && rest[0] == Open(k)
    ensures Find(s, Open(k)) == Some(|p|) && s[|p|..] == rest
  {
    assert s[|p|] == Open(k);
    assert forall i :: 0 <= i < |p| ==> s[i] == p[i];
    var at := Find(s, Open(k)).value;
    assert forall i :: 0 <= i < at ==> s[i] == s[..at][i];
    hide Find;
  }

  /** On any text, an answer is the text from the first opener to where it is
      closed, and there is an answer exactly when it is closed somewhere. */
  lemma ExtractedExactly(k: Kind, raw: string, t: string)
    ensures Extracted(k, raw) == Ok(t)
       <==> exists p, q :: Strip(raw) == p + (t + q) && Open(k) !in p && Matched(k, t)
  {
    hide Feed, Matched, Strip;
    var s := Strip(raw);
    if Extracted(k, raw) == Ok(t) {
      var start := Find(s, Open(k)).value;
      var rest := s[start..];
      ClosedMatches(k, rest);
      assert s == s[..start] + (t + rest[|t|..]);
    }
    if p, q :| s == p + (t + q) && Open(k) !in p && Matched(k, t) {
      MatchedCloses(k, t, q);
      FirstOpener(k, s, p, t + q);
    }
  }

  lemma ClosedMatches(k: Kind, rest: string)
    requires rest != "" && rest[0] == Open(k) && Feed(k, START, rest).Closed?
    ensures var n := Feed(k, START, rest).length; n <= |rest| && Matched(k, rest[..n])
  {
    FeedTells(k, rest);
    var n := Feed(k, START, rest).length;
    OpenInPrefix(k, rest[..n], rest[n..], n);
    assert rest == rest[..n] + rest[n..];
    hide Feed, Balance, OpenUpTo;
  }

  lemma MatchedCloses(k: Kind, t: string, q: string)
    requires Matched(k, t)
    ensures Feed(k, START, t + q) == Closed(|t|) && (t + q)[..|t|] == t
    ensures t != "" && t[0] == Open(k) && (t + q)[0] == Open(k)
  {
    FeedTells(k, t);
    OpenMore(k, t);
    FeedAppend(k, START, t, q);
    assert t[..|t|] == t;
    if Feed(k, START, t).Closed? {
      var n := Feed(k, START, t).length;
      assert n == |t|;
    }
  }

  /** And each error has its own cause: no opener at all, or one that is never
      closed. */
  lemma ErrorsExactly(k: Kind, raw: string)
    ensures Extracted(k, raw) == Err(NoneFound) <==> Open(k) !in Strip(raw)
    ensures Extracted(k, raw) == Err(Unbalanced)
       <==> exists p, rest :: Strip(raw) == p + rest && Open(k) !in p && rest != "" && rest[0] == Open(k)
              && OpenUpTo(k, rest, |rest| + 1)
  {
    var s := Strip(raw);
    var found := Find(s, Open(k));
    if found.Some? {
      var start := found.value;
      FeedTells(k, s[start..]);
      assert s == s[..start] + s[start..];
    }
    if p, rest :| s == p + rest && Open(k) !in p && rest != "" && rest[0] == Open(k) && OpenUpTo(k, rest, |rest| + 1) {
      FirstOpener(k, s, p, rest);
      FeedTells(k, rest);
    }
  }
}
