/** The streaming JSON writer: what it writes for a document, and that every legal
    call sequence writes exactly the document it describes. */
module JsonWriter {
  import opened Text

  /** What a caller wants written. Object members keep their order. */
  datatype Doc =
    | Null
    | Boolean(flag: bool)
    | Integer(number: int)
    | Text(text: string)
    | Array(items: seq<Doc>)
    | Object(members: seq<Member>)

  datatype Member = Member(key: string, value: Doc)

  // --- Escaping ---------------------------------------------------------------

  /** The low `n` hex digits of a value, upper case. */
  function HexText(value: nat, n: nat): (s: string)
    ensures |s| == n
  {
    if n == 0 then "" else HexText(value / 16, n - 1) + [HexDigit(value % 16)]
  }

  /** The letter of a two-character escape. */
  function EscapeLetter(c: char): Option<char> {
    match c
    case '\"' => Some('\"')
    case '\\' => Some('\\')
    case '\U{0008}' => Some('b')
    case '\U{000C}' => Some('f')
    case '\n' => Some('n')
    case '\r' => Some('r')
    case '\t' => Some('t')
    case _ => None
  }

  function EscapeChar(c: char): string {
    if EscapeLetter(c).Some? then ['\\', EscapeLetter(c).value]
    else if c < ' ' then ['\\', 'u'] + HexText(c as int, 4)
    else [c]
  }

  function Escape(text: string): string {
    if text == "" then "" else EscapeChar(text[0]) + Escape(text[1..])
  }

  lemma {:induction false} EscapeSnoc(text: string, c: char)
    ensures Escape(text + [c]) == Escape(text) + EscapeChar(c)
  {
    if text == "" {
      assert text + [c] == [c];
      assert Escape([c]) == EscapeChar(c) + Escape([]);
    } else {
      assert (text + [c])[1..] == text[1..] + [c];
      EscapeSnoc(text[1..], c);
    }
  }

  method EscapeText(text: string) returns (out: string)
    ensures out == Escape(text)
  {
    out := "";
    for i := 0 to |text|
      invariant out == Escape(text[..i])
    {
      assert text[..i + 1] == text[..i] + [text[i]];
      EscapeSnoc(text[..i], text[i]);
      var raw := text[i];
      match raw {
        case '\"' => out := out + "\\\"";
        case '\\' => out := out + "\\\\";
        case '\U{0008}' => out := out + "\\b";
        case '\U{000C}' => out := out + "\\f";
        case '\n' => out := out + "\\n";
        case '\r' => out := out + "\\r";
        case '\t' => out := out + "\\t";
        case _ =>
          if raw < ' ' {
            out := out + ("\\u" + HexText(raw as int, 4));
          } else {
            out := out + [raw];
          }
      }
    }
    assert text[..|text|] == text;
  }

  // --- The text of a document ---------------------------------------------------

  /** Line break and indentation before a child at nesting `level`; nothing when compact. */
  function Break(pretty: bool, level: nat): string {
    if pretty then "\n" + Repeat(' ', 2 * level) else ""
  }

  /** The break before a closing bracket: only a container with children gets one. */
  function CloseBreak(pretty: bool, level: nat, empty: bool): string {
    if empty then "" else Break(pretty, level)
  }

  function Comma(first: bool): string { if first then "" else "," }

  function KeyText(key: string, pretty: bool): string {
    "\"" + Escape(key) + ("\"" + (":" + if pretty then " " else ""))
  }

  function Render(d: Doc, pretty: bool, level: nat): string
    decreases d, 0
  {
    match d
    case Null => "null"
    case Boolean(flag) => if flag then "true" else "false"
    case Integer(number) => IntText(number)
    case Text(text) => "\"" + Escape(text) + "\""
    case Array(items) =>
      "[" + RenderItems(items, pretty, level + 1, true) + CloseBreak(pretty, level, items == []) + "]"
    case Object(members) =>
      "{" + RenderMembers(members, pretty, level + 1, true) + CloseBreak(pretty, level, members == []) + "}"
  }

  /** One array element with the comma and break before it. */
  function ItemText(d: Doc, pretty: bool, level: nat, first: bool): string
    decreases d, 1
  {
    Comma(first) + Break(pretty, level) + Render(d, pretty, level)
  }

  /** One object member with the comma and break before it. */
  function MemberText(m: Member, pretty: bool, level: nat, first: bool): string
    decreases m, 1
  {
    Comma(first) + Break(pretty, level) + KeyText(m.key, pretty) + Render(m.value, pretty, level)
  }

  function RenderItems(items: seq<Doc>, pretty: bool, level: nat, first: bool): string
    decreases items
  {
    if items == [] then "" else
    ItemText(items[0], pretty, level, first) + RenderItems(items[1..], pretty, level, false)
  }

  function RenderMembers(members: seq<Member>, pretty: bool, level: nat, first: bool): string
    decreases members
  {
    if members == [] then "" else
    MemberText(members[0], pretty, level, first) + RenderMembers(members[1..], pretty, level, false)
  }

  lemma {:induction false} Assoc(a: string, b: string, c: string)
    ensures (a + b) + c == a + (b + c)
  {
  }

  lemma {:induction false} RenderItemsSnoc(items: seq<Doc>, d: Doc, pretty: bool, level: nat, first: bool)
    ensures RenderItems(items + [d], pretty, level, first)
         == RenderItems(items, pretty, level, first) + ItemText(d, pretty, level, first && items == [])
    decreases items
  {
    if items == [] {
      assert [] + [d] == [d];
    } else {
      var rest := items[1..];
      assert (items + [d])[1..] == rest + [d];
      RenderItemsSnoc(rest, d, pretty, level, false);
      Assoc(ItemText(items[0], pretty, level, first), RenderItems(rest, pretty, level, false),
            ItemText(d, pretty, level, false));
    }
  }

  lemma {:induction false} RenderMembersSnoc(members: seq<Member>, m: Member, pretty: bool, level: nat, first: bool)
    ensures RenderMembers(members + [m], pretty, level, first)
         == RenderMembers(members, pretty, level, first) + MemberText(m, pretty, level, first && members == [])
    decreases members
  {
    if members == [] {
      assert [] + [m] == [m];
    } else {
      var rest := members[1..];
      assert (members + [m])[1..] == rest + [m];
      RenderMembersSnoc(rest, m, pretty, level, false);
      Assoc(MemberText(members[0], pretty, level, first), RenderMembers(rest, pretty, level, false),
            MemberText(m, pretty, level, false));
    }
  }

  // --- The writer as a state machine over its calls ------------------------------

  datatype Frame = Frame(isArray: bool, count: nat)

  datatype State = State(out: string, stack: seq<Frame>, pretty: bool, pendingKey: bool) {

    function Append(s: string): State { this.(out := out + s) }

    /** One more child in the innermost container, with its separator and break. */
    function NextChild(): State
      requires stack != []
    {
      var n := |stack| - 1;
      State(out + Comma(stack[n].count == 0) + Break(pretty, |stack|),
            stack[n := stack[n].(count := stack[n].count + 1)], pretty, pendingKey)
    }

    function BeginValue(): State {
      if pendingKey then this.(pendingKey := false)
      else if stack == [] then this
      else NextChild()
    }

    function Scalar(s: string): State { BeginValue().Append(s) }

    function Begin(isArray: bool): State {
      var st := BeginValue().Append(if isArray then "[" else "{");
      st.(stack := st.stack + [Frame(isArray, 0)])
    }

    function End(bracket: string): State
      requires stack != []
    {
      var n := |stack| - 1;
      State(out + CloseBreak(pretty, n, stack[n].count == 0) + bracket, stack[..n], pretty, pendingKey)
    }

    function Key(name: string): State
      requires stack != []
    {
      NextChild().Append(KeyText(name, pretty)).(pendingKey := true)
    }
  }

  datatype Call =
    | BeginObject | EndObject | BeginArray | EndArray
    | Key(name: string)
    | Value(scalar: Doc)   // value, value_int, value_uint, value_bool, value_null

  /** The calling protocol: `key` only inside an object and followed by one value,
      every `end` matches the innermost `begin`, one top-level value. */
  predicate Legal(st: State, call: Call) {
    match call
    case Value(scalar) => (scalar.Null? || scalar.Boolean? || scalar.Integer? || scalar.Text?) && TakesValue(st)
    case BeginObject => TakesValue(st)
    case BeginArray => TakesValue(st)
    case Key(_) => st.stack != [] && !st.stack[|st.stack| - 1].isArray && !st.pendingKey
    case EndObject => st.stack != [] && !st.stack[|st.stack| - 1].isArray && !st.pendingKey
    case EndArray => st.stack != [] && st.stack[|st.stack| - 1].isArray
  }

  predicate TakesValue(st: State) {
    if st.stack == [] then st.out == "" else st.pendingKey || st.stack[|st.stack| - 1].isArray
  }

  /** What a call does. The source has no defined behaviour for a key or an end outside any
      container; the protocol rules both out, and here they do nothing. */
  function Step(st: State, call: Call): State {
    match call
    case BeginObject => st.Begin(false)
    case EndObject => if st.stack == [] then st else st.End("}")
    case BeginArray => st.Begin(true)
    case EndArray => if st.stack == [] then st else st.End("]")
    case Key(name) => if st.stack == [] then st else st.Key(name)
    case Value(scalar) => st.Scalar(Render(scalar, st.pretty, 0))
  }

  ghost predicate LegalRun(st: State, calls: seq<Call>)
    decreases calls
  {
    calls == [] || (Legal(st, calls[0]) && LegalRun(Step(st, calls[0]), calls[1..]))
  }

  ghost function Run(st: State, calls: seq<Call>): State
    decreases calls
  {
    if calls == [] then st else Run(Step(st, calls[0]), calls[1..])
  }

  // --- The same calls building a tree ----------------------------------------------

  /** A container still being written; `key` is the key whose value comes next. */
  datatype Open =
    | OpenArray(items: seq<Doc>)
    | OpenObject(members: seq<Member>, key: Option<string>)

  datatype Builder = Building(open: seq<Open>) | Done(doc: Doc)

  /** A finished value goes into the innermost open container. */
  ghost function Put(open: seq<Open>, d: Doc): Builder
    requires open != [] && open[|open| - 1].OpenObject? ==> open[|open| - 1].key.Some?
  {
    if open == [] then Done(d) else Building(open[|open| - 1 := Grow(open[|open| - 1], d)])
  }

  ghost function Grow(o: Open, d: Doc): Open
    requires o.OpenObject? ==> o.key.Some?
  {
    match o
    case OpenArray(items) => OpenArray(items + [d])
    case OpenObject(members, key) => OpenObject(members + [Member(key.value, d)], None)
  }

  /** The number of children begun in a container: the finished ones, the one whose key
      is written, and the one still open above it. */
  ghost function Begun(o: Open, childOpen: bool): nat {
    match o
    case OpenArray(items) => |items| + if childOpen then 1 else 0
    case OpenObject(members, key) => |members| + if key.Some? then 1 else 0
  }

  /** Everything written inside `o` so far, short of a child still open above it. */
  ghost function OpenText(o: Open, pretty: bool, level: nat): string {
    match o
    case OpenArray(items) => "[" + RenderItems(items, pretty, level, true)
    case OpenObject(members, key) =>
      "{" + RenderMembers(members, pretty, level, true)
      + (if key.Some? then Comma(members == []) + Break(pretty, level) + KeyText(key.value, pretty) else "")
  }

  /** What stands between the text of a container and a child begun in it. */
  ghost function LeadIn(o: Open, pretty: bool, level: nat): string {
    match o
    case OpenArray(items) => Comma(items == []) + Break(pretty, level)
    case OpenObject(_, _) => ""
  }

  ghost function OpensText(open: seq<Open>, pretty: bool): string {
    if open == [] then "" else
    var n := |open| - 1;
    OpensText(open[..n], pretty) + LeadInto(open[..n], pretty) + OpenText(open[n], pretty, n + 1)
  }

  ghost function LeadInto(open: seq<Open>, pretty: bool): string {
    if open == [] then "" else LeadIn(open[|open| - 1], pretty, |open|)
  }

  /** The writer's frames for a stack of open containers. */
  ghost predicate FramesMatch(stack: seq<Frame>, open: seq<Open>) {
    && |stack| == |open|
    && forall i | 0 <= i < |open| ::
         && stack[i] == Frame(open[i].OpenArray?, Begun(open[i], i + 1 < |open|))
         && (i + 1 < |open| && open[i].OpenObject? ==> open[i].key.Some?)
  }

  /** The frames once one more child of the innermost container is begun. */
  ghost predicate FramesCounted(stack: seq<Frame>, open: seq<Open>) {
    && |stack| == |open|
    && forall i | 0 <= i < |open| ::
         && stack[i] == Frame(open[i].OpenArray?, Begun(open[i], true))
         && (open[i].OpenObject? ==> open[i].key.Some?)
  }

  ghost predicate KeyPending(open: seq<Open>) {
    open != [] && open[|open| - 1].OpenObject? && open[|open| - 1].key.Some?
  }

  /** The writer's state for a partial tree. */
  ghost predicate Represents(st: State, b: Builder) {
    match b
    case Done(doc) => st.stack == [] && !st.pendingKey && st.out == Render(doc, st.pretty, 0)
    case Building(open) =>
      FramesMatch(st.stack, open) && st.out == OpensText(open, st.pretty) && st.pendingKey == KeyPending(open)
  }

  ghost function WithKey(open: seq<Open>, name: string): seq<Open>
    requires open != [] && open[|open| - 1].OpenObject?
  {
    open[|open| - 1 := open[|open| - 1].(key := Some(name))]
  }

  ghost function BuildStep(b: Builder, call: Call): Builder {
    match b
    case Done(_) => b
    case Building(open) =>
      match call
      case BeginObject => Building(open + [OpenObject([], None)])
      case BeginArray => Building(open + [OpenArray([])])
      case Value(scalar) => if Keyed(open) then Put(open, scalar) else b
      case Key(name) =>
        if open != [] && open[|open| - 1].OpenObject? then
          Building(WithKey(open, name))
        else b
      case EndObject =>
        if open != [] && open[|open| - 1].OpenObject? && Keyed(open[..|open| - 1]) then
          Put(open[..|open| - 1], Object(open[|open| - 1].members))
        else b
      case EndArray =>
        if open != [] && open[|open| - 1].OpenArray? && Keyed(open[..|open| - 1]) then
          Put(open[..|open| - 1], Array(open[|open| - 1].items))
        else b
  }

  ghost predicate Keyed(open: seq<Open>) {
    open != [] && open[|open| - 1].OpenObject? ==> open[|open| - 1].key.Some?
  }

  ghost function Build(b: Builder, calls: seq<Call>): Builder
    decreases calls
  {
    if calls == [] then b else Build(BuildStep(b, calls[0]), calls[1..])
  }

  // --- Every legal call sequence writes the tree it builds ---------------------------

  lemma {:induction false} RenderNonempty(d: Doc, pretty: bool, level: nat)
    ensures Render(d, pretty, level) != ""
  {
  }

  /** The text before the innermost container, and the container itself. */
  lemma {:induction false} OpensTop(open: seq<Open>, pretty: bool, o: Open)
    ensures OpensText(open + [o], pretty)
         == OpensText(open, pretty) + LeadInto(open, pretty) + OpenText(o, pretty, |open| + 1)
  {
    assert (open + [o])[..|open|] == open;
  }

  lemma {:induction false} OpenGrows(o: Open, d: Doc, pretty: bool, level: nat)
    requires o.OpenObject? ==> o.key.Some?
    ensures OpenText(Grow(o, d), pretty, level)
         == OpenText(o, pretty, level) + (LeadIn(o, pretty, level) + Render(d, pretty, level))
  {
    match o
    case OpenArray(items) =>
      RenderItemsSnoc(items, d, pretty, level, true);
      Assoc("[", RenderItems(items, pretty, level, true), ItemText(d, pretty, level, items == []));
    case OpenObject(members, key) =>
      var m := Member(key.value, d);
      var all := RenderMembers(members, pretty, level, true);
      var lead := Comma(members == []) + Break(pretty, level) + KeyText(m.key, pretty);
      RenderMembersSnoc(members, m, pretty, level, true);
      assert MemberText(m, pretty, level, members == []) == lead + Render(d, pretty, level);
      Assoc("{", all, lead + Render(d, pretty, level));
      Assoc("{" + all, lead, Render(d, pretty, level));
      assert "" + Render(d, pretty, level) == Render(d, pretty, level);
      assert OpenText(OpenObject(members + [m], None), pretty, level)
          == "{" + RenderMembers(members + [m], pretty, level, true);
  }

  lemma {:induction false} Regroup(h: string, x: string, l: string, r: string)
    ensures h + (x + (l + r)) == h + x + l + r
  {
  }

  /** A value written where the innermost container expects one. */
  lemma {:induction false} PutText(open: seq<Open>, d: Doc, pretty: bool)
    requires open != [] && Keyed(open)
    ensures Put(open, d).Building?
    ensures OpensText(Put(open, d).open, pretty)
         == OpensText(open, pretty) + LeadInto(open, pretty) + Render(d, pretty, |open|)
  {
    var n := |open| - 1;
    var head := OpensText(open[..n], pretty) + LeadInto(open[..n], pretty);
    var next := Put(open, d).open;
    assert next[..n] == open[..n];
    OpenGrows(open[n], d, pretty, n + 1);
    Regroup(head, OpenText(open[n], pretty, n + 1), LeadIn(open[n], pretty, n + 1), Render(d, pretty, n + 1));
  }

  /** `begin_value` consumes the pending key or counts one more array element. */
  lemma {:induction false} BeginValueText(st: State, open: seq<Open>)
    requires Represents(st, Building(open)) && TakesValue(st)
    ensures Keyed(open)
    ensures st.BeginValue().out == st.out + LeadInto(open, st.pretty)
    ensures !st.BeginValue().pendingKey && st.BeginValue().pretty == st.pretty
    ensures FramesCounted(st.BeginValue().stack, open)
  {
    var n := |open| - 1;
    if open != [] && !st.pendingKey {
      assert open[n].OpenArray? && st.stack[n].count == |open[n].items|;
      Assoc(st.out, Comma(open[n].items == []), Break(st.pretty, |open|));
    }
  }

  lemma {:induction false} ScalarLevel(d: Doc, pretty: bool, level: nat)
    requires !d.Array? && !d.Object?
    ensures Render(d, pretty, level) == Render(d, pretty, 0)
  {
  }

  /** Filling in the child that was begun makes the frames match again. */
  lemma {:induction false} PutFrames(stack: seq<Frame>, open: seq<Open>, d: Doc)
    requires FramesCounted(stack, open) && open != []
    ensures Keyed(open) && Put(open, d).Building?
    ensures FramesMatch(stack, Put(open, d).open) && !KeyPending(Put(open, d).open)
  {
  }

  lemma {:induction false} ValueStep(st: State, open: seq<Open>, d: Doc)
    requires Represents(st, Building(open)) && Legal(st, Value(d))
    ensures Represents(Step(st, Value(d)), BuildStep(Building(open), Value(d)))
  {
    BeginValueText(st, open);
    ScalarLevel(d, st.pretty, |open|);
    if open != [] {
      PutValue(st, open, st.BeginValue().stack, Render(d, st.pretty, 0), d);
    }
  }

  /** A finished value, given its text, its frames and its place in the tree. */
  lemma {:induction false} PutValue(st: State, open: seq<Open>, stack: seq<Frame>, text: string, d: Doc)
    requires open != [] && Keyed(open) && FramesCounted(stack, open)
    requires text == Render(d, st.pretty, |open|)
    requires st.out == OpensText(open, st.pretty)
    ensures Represents(State(st.out + LeadInto(open, st.pretty) + text, stack, st.pretty, false), Put(open, d))
  {
    PutText(open, d, st.pretty);
    PutFrames(stack, open, d);
  }

  lemma {:induction false} BeginText(open: seq<Open>, pretty: bool, isArray: bool)
    ensures OpensText(open + [Opened(isArray)], pretty)
         == OpensText(open, pretty) + LeadInto(open, pretty) + if isArray then "[" else "{"
  {
    OpensTop(open, pretty, Opened(isArray));
    assert OpenText(Opened(isArray), pretty, |open| + 1) == if isArray then "[" else "{";
  }

  ghost function Opened(isArray: bool): Open {
    if isArray then OpenArray([]) else OpenObject([], None)
  }

  lemma {:induction false} BeginStep(st: State, open: seq<Open>, isArray: bool)
    requires Represents(st, Building(open)) && TakesValue(st)
    ensures Represents(st.Begin(isArray), Building(open + [Opened(isArray)]))
  {
    BeginValueText(st, open);
    BeginText(open, st.pretty, isArray);
    assert FramesMatch(st.Begin(isArray).stack, open + [Opened(isArray)]);
  }

  lemma {:induction false} KeyTextStep(open: seq<Open>, pretty: bool, name: string)
    requires open != [] && open[|open| - 1].OpenObject? && open[|open| - 1].key.None?
    ensures OpensText(WithKey(open, name), pretty)
         == OpensText(open, pretty) + Comma(open[|open| - 1].members == []) + Break(pretty, |open|)
             + KeyText(name, pretty)
  {
    var n := |open| - 1;
    var next := WithKey(open, name);
    assert next[..n] == open[..n];
    var head := OpensText(open[..n], pretty) + LeadInto(open[..n], pretty);
    var all := "{" + RenderMembers(open[n].members, pretty, n + 1, true);
    var comma, gap, key := Comma(open[n].members == []), Break(pretty, n + 1), KeyText(name, pretty);
    assert OpenText(open[n], pretty, n + 1) == all by { assert all + "" == all; }
    assert OpenText(next[n], pretty, n + 1) == all + (comma + gap + key);
    Regroup4(head, all, comma, gap, key);
  }

  lemma {:induction false} Regroup4(h: string, x: string, a: string, b: string, c: string)
    ensures h + (x + (a + b + c)) == h + x + a + b + c
  {
  }

  lemma {:induction false} KeyStep(st: State, open: seq<Open>, name: string)
    requires Represents(st, Building(open)) && Legal(st, Key(name))
    ensures Represents(st.Key(name), BuildStep(Building(open), Key(name)))
  {
    KeyTextStep(open, st.pretty, name);
    KeyFrames(st.stack, open, name);
  }

  /** A key already counts its member. */
  lemma {:induction false} KeyFrames(stack: seq<Frame>, open: seq<Open>, name: string)
    requires FramesMatch(stack, open) && open != [] && open[|open| - 1].OpenObject? && open[|open| - 1].key.None?
    ensures var n := |open| - 1;
            && FramesMatch(stack[n := stack[n].(count := stack[n].count + 1)], WithKey(open, name))
            && (stack[n].count == 0 <==> open[n].members == [])
  {
  }

  /** The document a closed container is. */
  ghost function Closed(o: Open): Doc {
    match o
    case OpenArray(items) => Array(items)
    case OpenObject(members, _) => Object(members)
  }

  ghost function Bracket(o: Open): string { if o.OpenArray? then "]" else "}" }

  lemma {:induction false} ClosedText(o: Open, pretty: bool, level: nat)
    requires o.OpenObject? ==> o.key.None?
    ensures Render(Closed(o), pretty, level)
         == OpenText(o, pretty, level + 1) + CloseBreak(pretty, level, Begun(o, false) == 0) + Bracket(o)
  {
    if o.OpenObject? {
      var all := "{" + RenderMembers(o.members, pretty, level + 1, true);
      assert all + "" == all;
    }
  }

  ghost function BuilderText(b: Builder, pretty: bool): string {
    match b
    case Done(doc) => Render(doc, pretty, 0)
    case Building(open) => OpensText(open, pretty)
  }

  lemma {:induction false} EndText(open: seq<Open>, pretty: bool)
    requires open != [] && !KeyPending(open) && Keyed(open[..|open| - 1])
    ensures OpensText(open, pretty) + CloseBreak(pretty, |open| - 1, Begun(open[|open| - 1], false) == 0)
              + Bracket(open[|open| - 1])
         == BuilderText(Put(open[..|open| - 1], Closed(open[|open| - 1])), pretty)
  {
    var n := |open| - 1;
    var below, o := open[..n], open[n];
    var head := OpensText(below, pretty) + LeadInto(below, pretty);
    var body, close := OpenText(o, pretty, n + 1), CloseBreak(pretty, n, Begun(o, false) == 0);
    ClosedText(o, pretty, n);
    Regroup(head, "", body + close, Bracket(o));
    Assoc(head, body, close);
    Assoc(head, body + close, Bracket(o));
    if below == [] {
      assert head == "";
      assert "" + body == body;
    } else {
      PutText(below, Closed(o), pretty);
    }
  }

  lemma {:induction false} EndStep(st: State, open: seq<Open>)
    requires Represents(st, Building(open)) && open != [] && !st.pendingKey
    ensures Keyed(open[..|open| - 1])
    ensures Represents(st.End(Bracket(open[|open| - 1])), Put(open[..|open| - 1], Closed(open[|open| - 1])))
  {
    var n := |open| - 1;
    var below := open[..n];
    EndText(open, st.pretty);
    if below != [] {
      assert FramesCounted(st.stack[..n], below);
      PutFrames(st.stack[..n], below, Closed(open[n]));
    }
  }

  lemma {:induction false} StepRepresents(st: State, b: Builder, call: Call)
    requires Represents(st, b) && Legal(st, call)
    ensures Represents(Step(st, call), BuildStep(b, call))
  {
    match b
    case Done(doc) =>
      RenderNonempty(doc, st.pretty, 0);
    case Building(open) =>
      match call
      case Value(d) => ValueStep(st, open, d);
      case BeginObject => BeginStep(st, open, false);
      case BeginArray => BeginStep(st, open, true);
      case Key(name) => KeyStep(st, open, name);
      case EndObject => EndStep(st, open);
      case EndArray => EndStep(st, open);
  }

  lemma {:induction false} RunRepresents(st: State, b: Builder, calls: seq<Call>)
    requires Represents(st, b) && LegalRun(st, calls)
    ensures Represents(Run(st, calls), Build(b, calls))
    decreases calls
  {
    if calls != [] {
      StepRepresents(st, b, calls[0]);
      RunRepresents(Step(st, calls[0]), BuildStep(b, calls[0]), calls[1..]);
    }
  }

  ghost function Fresh(pretty: bool): State { State("", [], pretty, false) }

  /** Every legal run that has closed all its containers and written something has
      written the text of exactly one document, the one its calls describe. */
  lemma {:induction false} CompleteRunWritesDocument(pretty: bool, calls: seq<Call>)
    requires LegalRun(Fresh(pretty), calls)
    requires calls != [] && Run(Fresh(pretty), calls).stack == []
    ensures Build(Building([]), calls).Done?
    ensures Run(Fresh(pretty), calls).out == Render(Build(Building([]), calls).doc, pretty, 0)
  {
    RunRepresents(Fresh(pretty), Building([]), calls);
    RunKeepsText(Fresh(pretty), calls);
  }

  lemma {:induction false} StepWrites(st: State, call: Call)
    requires Legal(st, call)
    ensures |Step(st, call).out| > |st.out| && Step(st, call).pretty == st.pretty
  {
    if call.Value? { RenderNonempty(call.scalar, st.pretty, 0); }
  }

  lemma {:induction false} RunKeepsText(st: State, calls: seq<Call>)
    requires LegalRun(st, calls)
    ensures |Run(st, calls).out| >= |st.out| + |calls| && Run(st, calls).pretty == st.pretty
    decreases calls
  {
    if calls != [] {
      StepWrites(st, calls[0]);
      RunKeepsText(Step(st, calls[0]), calls[1..]);
    }
  }

  // --- Every document can be written -------------------------------------------------

  /** The calls that write a document. */
  ghost function Calls(d: Doc): seq<Call>
    decreases d, 0
  {
    match d
    case Array(items) => [BeginArray] + ItemCalls(items) + [EndArray]
    case Object(members) => [BeginObject] + MemberCalls(members) + [EndObject]
    case _ => [Value(d)]
  }

  ghost function ItemCalls(items: seq<Doc>): seq<Call>
    decreases items
  {
    if items == [] then [] else Calls(items[0]) + ItemCalls(items[1..])
  }

  ghost function MemberCalls(members: seq<Member>): seq<Call>
    decreases members
  {
    if members == [] then [] else [Key(members[0].key)] + Calls(members[0].value) + MemberCalls(members[1..])
  }

  /** Running `calls` is legal and takes the builder from `b` to `b1`. */
  ghost predicate Builds(st: State, b: Builder, calls: seq<Call>, b1: Builder) {
    LegalRun(st, calls) && Build(b, calls) == b1
  }

  lemma {:induction false} BuildsThen(st: State, b: Builder, x: seq<Call>, b1: Builder, y: seq<Call>, b2: Builder)
    requires Builds(st, b, x, b1) && Builds(Run(st, x), b1, y, b2)
    ensures Builds(st, b, x + y, b2) && Run(st, x + y) == Run(Run(st, x), y)
    decreases x
  {
    if x == [] {
      assert x + y == y;
    } else {
      assert (x + y)[1..] == x[1..] + y;
      BuildsThen(Step(st, x[0]), BuildStep(b, x[0]), x[1..], b1, y, b2);
    }
  }

  lemma {:induction false} BuildsOne(st: State, b: Builder, call: Call)
    requires Legal(st, call)
    ensures Builds(st, b, [call], BuildStep(b, call)) && Run(st, [call]) == Step(st, call)
  {
    assert [call][1..] == [];
  }

  /** The calls of a document are legal wherever a value is due, and build that document. */
  lemma {:induction false} CallsBuild(st: State, open: seq<Open>, d: Doc)
    requires Represents(st, Building(open)) && TakesValue(st)
    ensures Keyed(open) && Builds(st, Building(open), Calls(d), Put(open, d))
    decreases d, 0
  {
    BeginValueText(st, open);
    match d
    case Array(items) => ArrayCallsBuild(st, open, items);
    case Object(members) => ObjectCallsBuild(st, open, members);
    case _ => BuildsOne(st, Building(open), Value(d));
  }

  lemma {:induction false} ArrayCallsBuild(st: State, open: seq<Open>, items: seq<Doc>)
    requires Represents(st, Building(open)) && TakesValue(st) && Keyed(open)
    ensures Builds(st, Building(open), Calls(Array(items)), Put(open, Array(items)))
    decreases items, 1
  {
    BeginStep(st, open, true);
    var open1 := open + [Opened(true)];
    ItemCallsBuild(st.Begin(true), open1, items);
    assert [] + items == items;
    assert open1[|open|] == OpenArray([]);
    assert open1[|open| := OpenArray(items)] == open + [OpenArray(items)];
    CloseBuilds(st, open, BeginArray, ItemCalls(items), OpenArray(items));
  }

  lemma {:induction false} ObjectCallsBuild(st: State, open: seq<Open>, members: seq<Member>)
    requires Represents(st, Building(open)) && TakesValue(st) && Keyed(open)
    ensures Builds(st, Building(open), Calls(Object(members)), Put(open, Object(members)))
    decreases members, 1
  {
    BeginStep(st, open, false);
    var open1 := open + [Opened(false)];
    MemberCallsBuild(st.Begin(false), open1, members);
    assert [] + members == members;
    assert open1[|open|] == OpenObject([], None);
    assert WithMembers(open1, members) == open + [OpenObject(members, None)];
    CloseBuilds(st, open, BeginObject, MemberCalls(members), OpenObject(members, None));
  }

  /** A container opened, filled and closed again. */
  lemma {:induction false} CloseBuilds(st: State, open: seq<Open>, begin: Call, inner: seq<Call>, full: Open)
    requires Represents(st, Building(open)) && TakesValue(st) && Keyed(open)
    requires begin == (if full.OpenArray? then BeginArray else BeginObject)
    requires full.OpenObject? ==> full.key.None?
    requires Builds(Step(st, begin), BuildStep(Building(open), begin), inner, Building(open + [full]))
    ensures Builds(st, Building(open), [begin] + inner + [if full.OpenArray? then EndArray else EndObject],
                   Put(open, Closed(full)))
  {
    var b, open1 := Building(open), open + [full];
    var end := if full.OpenArray? then EndArray else EndObject;
    BuildsOne(st, b, begin);
    BuildsThen(st, b, [begin], BuildStep(b, begin), inner, Building(open1));
    RunRepresents(st, b, [begin] + inner);
    assert open1[..|open1| - 1] == open;
    BuildsOne(Run(st, [begin] + inner), Building(open1), end);
    BuildsThen(st, b, [begin] + inner, Building(open1), [end], Put(open, Closed(full)));
  }

  lemma {:induction false} ItemCallsBuild(st: State, open: seq<Open>, items: seq<Doc>)
    requires Represents(st, Building(open)) && open != [] && open[|open| - 1].OpenArray?
    ensures Builds(st, Building(open), ItemCalls(items),
                   Building(open[|open| - 1 := OpenArray(open[|open| - 1].items + items)]))
    decreases items, 0
  {
    var n := |open| - 1;
    if items == [] {
      assert open[n].items + [] == open[n].items;
    } else {
      var x := Calls(items[0]);
      CallsBuild(st, open, items[0]);
      RunRepresents(st, Building(open), x);
      var open1 := Put(open, items[0]).open;
      ItemCallsBuild(Run(st, x), open1, items[1..]);
      assert open[n].items + items == (open[n].items + [items[0]]) + items[1..];
      BuildsThen(st, Building(open), x, Building(open1), ItemCalls(items[1..]),
                 Building(open[n := OpenArray(open[n].items + items)]));
    }
  }

  lemma {:induction false} MemberCallsBuild(st: State, open: seq<Open>, members: seq<Member>)
    requires Represents(st, Building(open)) && open != [] && open[|open| - 1].OpenObject?
             && open[|open| - 1].key == None
    ensures Builds(st, Building(open), MemberCalls(members), Building(WithMembers(open, members)))
    decreases members, 0
  {
    if members == [] {
      assert open[|open| - 1].members + [] == open[|open| - 1].members;
      assert WithMembers(open, []) == open;
    } else {
      var m := members[0];
      MemberBuilds(st, open, m);
      var x := [Key(m.key)] + Calls(m.value);
      var open1 := WithMembers(open, [m]);
      RunRepresents(st, Building(open), x);
      MemberCallsBuild(Run(st, x), open1, members[1..]);
      assert members == [m] + members[1..];
      WithMembersTwice(open, [m], members[1..]);
      BuildsThen(st, Building(open), x, Building(open1), MemberCalls(members[1..]),
          Building(WithMembers(open, members)));
    }
  }

  ghost function WithMembers(open: seq<Open>, members: seq<Member>): seq<Open>
    requires open != [] && open[|open| - 1].OpenObject?
  {
    open[|open| - 1 := OpenObject(open[|open| - 1].members + members, None)]
  }

  lemma {:induction false} WithMembersTwice(open: seq<Open>, a: seq<Member>, b: seq<Member>)
    requires open != [] && open[|open| - 1].OpenObject?
    ensures WithMembers(WithMembers(open, a), b) == WithMembers(open, a + b)
  {
    var have := open[|open| - 1].members;
    assert (have + a) + b == have + (a + b);
  }

  lemma {:induction false} MemberBuilds(st: State, open: seq<Open>, m: Member)
    requires Represents(st, Building(open)) && open != [] && open[|open| - 1].OpenObject?
             && open[|open| - 1].key == None
    ensures Builds(st, Building(open), [Key(m.key)] + Calls(m.value), Building(WithMembers(open, [m])))
    decreases m, 1
  {
    var openk := WithKey(open, m.key);
    KeyStep(st, open, m.key);
    BuildsOne(st, Building(open), Key(m.key));
    CallsBuild(st.Key(m.key), openk, m.value);
    assert Put(openk, m.value).open == WithMembers(open, [m]);
    BuildsThen(st, Building(open), [Key(m.key)], Building(openk), Calls(m.value), Put(openk, m.value));
  }

  /** For every document there is a call sequence, and it writes that document's text. */
  lemma {:induction false} WriterWritesEveryDocument(d: Doc, pretty: bool)
    ensures LegalRun(Fresh(pretty), Calls(d))
    ensures Run(Fresh(pretty), Calls(d)).out == Render(d, pretty, 0)
  {
    CallsBuild(Fresh(pretty), [], d);
    RunRepresents(Fresh(pretty), Building([]), Calls(d));
    RunKeepsText(Fresh(pretty), Calls(d));
  }

  lemma {:induction false} QuotedParts(lead: string, body: string, tail: string)
    ensures lead + "\"" + body + "\"" + tail == lead + ("\"" + body + ("\"" + tail))
  {
  }

  lemma {:induction false} QuotedText(lead: string, text: string, pretty: bool)
    ensures lead + "\"" + Escape(text) + "\"" == lead + Render(Text(text), pretty, 0)
  {
    QuotedParts(lead, Escape(text), "");
  }

  // --- The writer object ----------------------------------------------------------------

  lemma {:induction false} RunSnoc(st: State, calls: seq<Call>, call: Call)
    ensures Run(st, calls + [call]) == Step(Run(st, calls), call)
    decreases calls
  {
    if calls == [] {
      assert [] + [call] == [call];
      assert Run(st, [call]) == Run(Step(st, call), []);
    } else {
      assert (calls + [call])[1..] == calls[1..] + [call];
      RunSnoc(Step(st, calls[0]), calls[1..], call);
    }
  }

  lemma {:induction false} BreakText(lead: string, pretty: bool, level: nat)
    ensures lead + Break(pretty, level) == if pretty then lead + "\n" + Repeat(' ', level * 2) else lead
    ensures lead + "" == lead
  {
    if pretty { assert lead + ("\n" + Repeat(' ', level * 2)) == lead + "\n" + Repeat(' ', level * 2); }
  }

  /** The state a new writer reaches by some calls. */
  ghost function Reached(pretty: bool, calls: seq<Call>): State {
    Run(Fresh(pretty), calls)
  }

  class Writer {
    var out: string
    var stack: seq<Frame>
    const pretty: bool
    var pendingKey: bool
    ghost var calls: seq<Call>   // every call so far

    constructor (pretty: bool)
      ensures Valid() && this.pretty == pretty && calls == [] && stack == []
    {
      out, stack, pendingKey, calls := "", [], false, [];
      this.pretty := pretty;
    }

    ghost function St(): State
      reads this
    {
      State(out, stack, pretty, pendingKey)
    }

    ghost predicate Valid()
      reads this
    {
      St() == Reached(pretty, calls)
    }

    ghost method Record(call: Call, before: State)
      requires before == Reached(pretty, calls) && St() == Step(before, call)
      modifies this`calls
      ensures Valid() && calls == old(calls) + [call]
    {
      RunSnoc(Fresh(pretty), calls, call);
      calls := calls + [call];
    }

    method Indent(depth: nat)
      modifies this`out
      ensures out == old(out) + if pretty then Repeat(' ', depth * 2) else ""
    {
      if !pretty { return; }
      out := out + Repeat(' ', depth * 2);
    }

    method NewChild()
      requires stack != []
      modifies this`out, this`stack
      ensures St() == old(St()).NextChild()
    {
      var n := |stack| - 1;
      if stack[n].count > 0 { out := out + ","; }
      ghost var lead := out;
      if pretty {
        out := out + "\n";
        Indent(|stack|);
      }
      BreakText(lead, pretty, |stack|);
      stack := stack[n := stack[n].(count := stack[n].count + 1)];
    }

    method BeginValue()
      modifies this`out, this`stack, this`pendingKey
      ensures St() == old(St()).BeginValue()
    {
      if pendingKey {
        pendingKey := false;
        return;
      }
      if stack == [] { return; }
      NewChild();
    }

    method Begin(isArray: bool)
      requires Valid()
      modifies this
      ensures Valid() && calls == old(calls) + [if isArray then BeginArray else BeginObject]
      ensures |stack| == old(|stack|) + 1
    {
      ghost var before := St();
      BeginValue();
      out := out + if isArray then "[" else "{";
      stack := stack + [Frame(isArray, 0)];
      Record(if isArray then BeginArray else BeginObject, before);
    }

    method End(isArray: bool)
      requires Valid() && stack != []
      modifies this
      ensures Valid() && calls == old(calls) + [if isArray then EndArray else EndObject]
      ensures |stack| == old(|stack|) - 1
    {
      ghost var before := St();
      var frame := stack[|stack| - 1];
      stack := stack[..|stack| - 1];
      ghost var body := out;
      if pretty && frame.count > 0 {
        out := out + "\n";
        Indent(|stack|);
      }
      BreakText(body, pretty, |stack|);
      out := out + if isArray then "]" else "}";
      Record(if isArray then EndArray else EndObject, before);
    }

    method Key(name: string)
      requires Valid() && stack != []
      modifies this
      ensures Valid() && calls == old(calls) + [Call.Key(name)] && |stack| == old(|stack|)
    {
      ghost var before := St();
      NewChild();
      var escaped := EscapeText(name);
      QuotedParts(out, escaped, ":" + if pretty then " " else "");
      out := out + "\"";
      out := out + escaped;
      out := out + "\"";
      out := out + (":" + if pretty then " " else "");
      pendingKey := true;
      Record(Call.Key(name), before);
    }

    method Value(text: string)
      requires Valid()
      modifies this
      ensures Valid() && calls == old(calls) + [Call.Value(Text(text))] && |stack| == old(|stack|)
    {
      ghost var before := St();
      BeginValue();
      var escaped := EscapeText(text);
      QuotedText(out, text, pretty);
      out := out + "\"" + escaped + "\"";
      Record(Call.Value(Text(text)), before);
    }

    method ValueInt(number: int)
      requires Valid()
      modifies this
      ensures Valid() && calls == old(calls) + [Call.Value(Integer(number))] && |stack| == old(|stack|)
    {
      ghost var before := St();
      BeginValue();
      out := out + IntText(number);
      Record(Call.Value(Integer(number)), before);
    }

    method ValueBool(flag: bool)
      requires Valid()
      modifies this
      ensures Valid() && calls == old(calls) + [Call.Value(Boolean(flag))] && |stack| == old(|stack|)
    {
      ghost var before := St();
      BeginValue();
      out := out + if flag then "true" else "false";
      Record(Call.Value(Boolean(flag)), before);
    }

    method ValueNull()
      requires Valid()
      modifies this
      ensures Valid() && calls == old(calls) + [Call.Value(Null)] && |stack| == old(|stack|)
    {
      ghost var before := St();
      BeginValue();
      out := out + "null";
      Record(Call.Value(Null), before);
    }

    method MemberText(name: string, text: string)
      requires Valid() && stack != []
      modifies this
      ensures Valid() && calls == old(calls) + [Call.Key(name), Call.Value(Text(text))] && |stack| == old(|stack|)
    {
      Key(name);
      Value(text);
    }

    method MemberInt(name: string, number: int)
      requires Valid() && stack != []
      modifies this
      ensures Valid() && calls == old(calls) + [Call.Key(name), Call.Value(Integer(number))] && |stack| == old(|stack|)
    {
      Key(name);
      ValueInt(number);
    }

    method MemberBool(name: string, flag: bool)
      requires Valid() && stack != []
      modifies this
      ensures Valid() && calls == old(calls) + [Call.Key(name), Call.Value(Boolean(flag))] && |stack| == old(|stack|)
    {
      Key(name);
      ValueBool(flag);
    }
  }
}
