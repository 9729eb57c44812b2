/** The JSON writer: a bounded buffer, a bounded stack of open containers, and an error that sticks. */
module JsonWriter {
  import opened Wrappers
  import opened JsonTree
  import opened Machine
  import Decimal

  const STACK_DEPTH := 32

  datatype Error = OK | BUF_FULL | NOT_ARRAY | NOT_OBJECT | STACK_FULL | STACK_EMPTY | NEST_ERROR

  /** An open container, and how many elements it has so far. */
  datatype Frame = Frame(node: Node, elementNo: nat)

  /** What a call puts behind its key: raw text, a quoted string, or the start of a container. */
  datatype Item = RawItem(text: string) | TextItem(chars: string) | OpenItem(node: Node)

  /** The calls between jwOpen and jwClose; a call with a key is one of the object functions. */
  datatype Call = Put(key: Option<string>, item: Item) | End

  /** The state of the writer; without a limit on its room it describes an ideal writer. */
  datatype Control = Control(
    out: string, room: Option<nat>, stack: seq<Frame>, error: Error, callNo: nat, pretty: bool)
  {
    predicate Valid() { stack != [] && |stack| <= STACK_DEPTH && (room.Some? ==> |out| <= room.value) }

    function Level(): nat { if stack == [] then 0 else |stack| - 1 }

    function Top(): Frame { if stack == [] then Frame(ObjectNode, 0) else stack[|stack| - 1] }
  }

  /** Characters beyond the end of the buffer are lost. */
  function Emit(c: Control, text: string): (r: Control)
    requires c.Valid()
    ensures r.Valid() && r.stack == c.stack
  {
    if c.room.Some? && |c.out| + |text| > c.room.value
    then c.(out := (c.out + text)[..c.room.value], error := BUF_FULL)
    else c.(out := c.out + text)
  }

  function Counted(c: Control): (r: Control)
    requires c.Valid()
    ensures r.Valid() && |r.stack| == |c.stack|
  {
    c.(stack := c.stack[..c.Level()] + [Frame(c.Top().node, c.Top().elementNo + 1)])
  }

  /** The common part of all insertions: checks the container, and writes comma, line break and key. */
  function Begin(c: Control, key: Option<string>): (r: Control)
    requires c.Valid()
    ensures r.Valid()
  {
    var c1 := c.(callNo := c.callNo + 1);
    var c2 :=
      if key.Some? && c.Top().node != ObjectNode then c1.(error := NOT_OBJECT)
      else if key.None? && c.Top().node != ArrayNode then c1.(error := NOT_ARRAY)
      else if c.Top().elementNo > 0 then Emit(Counted(c1), ",")
      else Counted(c1);
    Emit(c2, NewLine(c.pretty, c.Level()) + Label(key, c.pretty))
  }

  function Pushed(c: Control, node: Node): (r: Control)
    requires c.Valid()
    ensures r.Valid()
  {
    if |c.stack| >= STACK_DEPTH then c.(error := STACK_FULL)
    else c.(stack := c.stack + [Frame(node, 0)])
  }

  function Popped(c: Control): (r: Control)
    requires c.Valid()
    ensures r.Valid()
  {
    if |c.stack| == 1 then c.(error := STACK_EMPTY) else c.(stack := c.stack[..c.Level()])
  }

  function Insert(c: Control, item: Item): (r: Control)
    requires c.Valid()
    ensures r.Valid()
  {
    match item
    case RawItem(text) => Emit(c, text)
    case TextItem(s) => Emit(c, Quoted(s))
    case OpenItem(n) => Pushed(Emit(c, [Opener(n)]), n)
  }

  function Ended(c: Control): (r: Control)
    requires c.Valid()
    ensures r.Valid()
  {
    var popped := Popped(c);
    var broken := if c.Top().elementNo > 0 then Emit(popped, NewLine(c.pretty, popped.Level())) else popped;
    Emit(broken, [Closer(c.Top().node)])
  }

  function Step(c: Control, call: Call): (r: Control)
    requires c.Valid()
    ensures r.Valid()
  {
    if c.error != OK then c
    else match call
      case End => Ended(c)
      case Put(key, item) =>
        var begun := Begin(c, key);
        if begun.error != OK then begun else Insert(begun, item)
  }

  function Run(c: Control, calls: seq<Call>): (r: Control)
    requires c.Valid()
    ensures r.Valid()
    decreases |calls|
  {
    if calls == [] then c else Run(Step(c, calls[0]), calls[1..])
  }

  function Opened(root: Node, room: Option<nat>, pretty: bool): (r: Control)
    ensures r.Valid()
  {
    Emit(Control("", room, [Frame(root, 0)], OK, 1, pretty), [Opener(root)])
  }

  function Closed(c: Control): (r: Control)
    requires c.Valid()
    ensures r.Valid()
  {
    if c.error != OK then c
    else if |c.stack| == 1 then Emit(c, (if c.pretty then "\n" else "") + [Closer(c.stack[0].node)])
    else c.(error := NEST_ERROR)
  }

  /** A whole session. */
  function Session(root: Node, calls: seq<Call>, room: Option<nat>, pretty: bool): Control {
    Closed(Run(Opened(root, room, pretty), calls))
  }

  lemma EmitTwice(c: Control, a: string, b: string)
    requires c.Valid()
    ensures Emit(Emit(c, a), b) == Emit(c, a + b)
  {
    assert (c.out + a) + b == c.out + (a + b);
    if c.room.Some? && |c.out| + |a| > c.room.value {
      var full := (c.out + a)[..c.room.value];
      if b == "" {
        assert a + b == a;
      } else {
        assert (full + b)[..c.room.value] == full;
        assert (c.out + (a + b))[..c.room.value] == full;
      }
    }
  }

  // ---- Bounded and ideal writer ----

  /** The bounded writer is fine exactly as long as the ideal one is and its output fits; then they agree. */
  ghost predicate Mirrors(c: Control, u: Control) {
    && c.Valid() && u.Valid() && c.room.Some? && u.room == None
    && (c.error == OK <==> u.error == OK && |u.out| <= c.room.value)
    && (c.error == OK ==> c == u.(room := c.room))
  }

  lemma EmitMirrors(c: Control, u: Control, text: string)
    requires Mirrors(c, u)
    ensures Mirrors(Emit(c, text), Emit(u, text)) && Emit(c, text).room == c.room
  {
  }

  lemma BeginMirrors(c: Control, u: Control, key: Option<string>)
    requires Mirrors(c, u) && c.error == OK
    ensures Mirrors(Begin(c, key), Begin(u, key)) && Begin(c, key).room == c.room
  {
    hide NewLine, Label;
    var text := NewLine(c.pretty, c.Level()) + Label(key, c.pretty);
    var c1, u1 := c.(callNo := c.callNo + 1), u.(callNo := u.callNo + 1);
    if (key.Some? && c.Top().node != ObjectNode) || (key.None? && c.Top().node != ArrayNode) {
      var e := if key.Some? then NOT_OBJECT else NOT_ARRAY;
      EmitMirrors(c1.(error := e), u1.(error := e), text);
    } else if c.Top().elementNo > 0 {
      EmitMirrors(Counted(c1), Counted(u1), ",");
      EmitMirrors(Emit(Counted(c1), ","), Emit(Counted(u1), ","), text);
    } else {
      EmitMirrors(Counted(c1), Counted(u1), text);
    }
  }

  lemma InsertMirrors(c: Control, u: Control, item: Item)
    requires Mirrors(c, u) && c.error == OK
    ensures Mirrors(Insert(c, item), Insert(u, item)) && Insert(c, item).room == c.room
  {
    match item
    case RawItem(text) => EmitMirrors(c, u, text);
    case TextItem(s) => EmitMirrors(c, u, Quoted(s));
    case OpenItem(n) => EmitMirrors(c, u, [Opener(n)]);
  }

  lemma EndedMirrors(c: Control, u: Control)
    requires Mirrors(c, u) && c.error == OK
    ensures Mirrors(Ended(c), Ended(u)) && Ended(c).room == c.room
  {
    hide NewLine;
    var text := NewLine(c.pretty, Popped(c).Level());
    if c.Top().elementNo > 0 {
      EmitMirrors(Popped(c), Popped(u), text);
      EmitMirrors(Emit(Popped(c), text), Emit(Popped(u), text), [Closer(c.Top().node)]);
    } else {
      EmitMirrors(Popped(c), Popped(u), [Closer(c.Top().node)]);
    }
  }

  /** A writer without a limit never takes anything back. */
  lemma StepGrows(u: Control, call: Call)
    requires u.Valid() && u.room == None
    ensures |u.out| <= |Step(u, call).out| && Step(u, call).room == None
  {
    hide NewLine, Label;
  }

  lemma StepMirrors(c: Control, u: Control, call: Call)
    requires Mirrors(c, u)
    ensures Mirrors(Step(c, call), Step(u, call)) && Step(c, call).room == c.room
  {
    hide Begin, Insert, Ended;
    if c.error == OK {
      match call
      case End => EndedMirrors(c, u);
      case Put(key, item) =>
        BeginMirrors(c, u, key);
        if Begin(c, key).error == OK {
          InsertMirrors(Begin(c, key), Begin(u, key), item);
        } else {
          StepGrows(u, call);
          if Begin(u, key).error == OK { InsertGrows(Begin(u, key), item); }
        }
    } else {
      StepGrows(u, call);
    }
  }

  lemma InsertGrows(u: Control, item: Item)
    requires u.Valid() && u.room == None
    ensures |u.out| <= |Insert(u, item).out| && Insert(u, item).room == None
  {
  }

  lemma {:induction false} RunMirrors(c: Control, u: Control, calls: seq<Call>)
    requires Mirrors(c, u)
    ensures Mirrors(Run(c, calls), Run(u, calls)) && Run(c, calls).room == c.room
    decreases |calls|
  {
    hide Step, Mirrors;
    MirrorsValid(c, u);
    if calls != [] {
      StepMirrors(c, u, calls[0]);
      RunMirrors(Step(c, calls[0]), Step(u, calls[0]), calls[1..]);
    }
  }

  lemma MirrorsValid(c: Control, u: Control)
    requires Mirrors(c, u)
    ensures c.Valid() && u.Valid()
  {
  }

  /** The buffer is big enough exactly for the output of the ideal writer. */
  lemma SessionFits(root: Node, calls: seq<Call>, room: nat, pretty: bool)
    ensures var c, u := Session(root, calls, Some(room), pretty), Session(root, calls, None, pretty);
      && (c.error == OK <==> u.error == OK && |u.out| <= room)
      && (c.error == OK ==> c.out == u.out)
  {
    hide Run, NewLine;
    var c, u := Opened(root, Some(room), pretty), Opened(root, None, pretty);
    assert Mirrors(c, u) && c.room == Some(room);
    RunMirrors(c, u, calls);
  }

  // ---- Calls and trees ----

  /** The calls that write a list of elements. */
  function CallsOf(es: Elems): seq<Call>
    decreases es
  {
    match es
    case Nil => []
    case Cons(k, v, rest) => CallsOfValue(k, v) + CallsOf(rest)
  }

  function CallsOfValue(key: Option<string>, v: Value): seq<Call>
    decreases v
  {
    match v
    case Raw(text) => [Put(key, RawItem(text))]
    case Text(s) => [Put(key, TextItem(s))]
    case Container(n, es) => [Put(key, OpenItem(n))] + CallsOf(es) + [End]
  }

  /** The value that an insertion writes, up to the contents of a container. */
  function Leaf(item: Item): Value {
    match item
    case RawItem(text) => Raw(text)
    case TextItem(s) => Text(s)
    case OpenItem(n) => Container(n, Nil)
  }

  datatype Parsed = Parsed(elems: Elems, rest: seq<Call>) | Unclosed

  /** The elements that a list of calls describes, up to the first `End` that closes none of them. */
  function ReadCalls(calls: seq<Call>): (r: Parsed)
    ensures r.Parsed? ==> |r.rest| <= |calls| && (r.rest == [] || r.rest[0] == End)
    decreases |calls|
  {
    if calls == [] || calls[0] == End then Parsed(Nil, calls)
    else match calls[0].item
      case OpenItem(n) =>
        (match ReadCalls(calls[1..])
         case Unclosed => Unclosed
         case Parsed(inner, rest) =>
           if rest == [] then Unclosed
           else match ReadCalls(rest[1..])
             case Unclosed => Unclosed
             case Parsed(more, rest') => Parsed(Cons(calls[0].key, Container(n, inner), more), rest'))
      case _ =>
        match ReadCalls(calls[1..])
        case Unclosed => Unclosed
        case Parsed(more, rest) => Parsed(Cons(calls[0].key, Leaf(calls[0].item), more), rest)
  }

  lemma ReadLeaf(key: Option<string>, item: Item, tail: seq<Call>, more: Elems, rest: seq<Call>)
    requires !item.OpenItem? && ReadCalls(tail) == Parsed(more, rest)
    ensures ReadCalls([Put(key, item)] + tail) == Parsed(Cons(key, Leaf(item), more), rest)
  {
    hide Leaf;
    assert ([Put(key, item)] + tail)[1..] == tail;
  }

  lemma ReadContainer(key: Option<string>, n: Node, mid: seq<Call>, tail: seq<Call>, inner: Elems, more: Elems,
          rest: seq<Call>)
    requires ReadCalls(mid) == Parsed(inner, [End] + tail) && ReadCalls(tail) == Parsed(more, rest)
    ensures ReadCalls([Put(key, OpenItem(n))] + mid) == Parsed(Cons(key, Container(n, inner), more), rest)
  {
    hide Leaf;
    assert ([Put(key, OpenItem(n))] + mid)[1..] == mid;
    assert ([End] + tail)[1..] == tail;
  }

  lemma SeqAssoc<T>(a: seq<T>, b: seq<T>, c: seq<T>)
    ensures (a + b) + c == a + (b + c)
  {
  }

  /** Every well-nested list of calls is the list of calls of exactly one list of elements. */
  lemma {:induction false} ReadInvertsCalls(es: Elems, rest: seq<Call>)
    requires rest == [] || rest[0] == End
    ensures ReadCalls(CallsOf(es) + rest) == Parsed(es, rest)
    decreases es
  {
    hide ReadCalls;
    match es
    case Nil =>
      assert [] + rest == rest;
      ReadNothing(rest);
    case Cons(k, v, more) =>
      ReadInvertsCalls(more, rest);
      var tail := CallsOf(more) + rest;
      SeqAssoc(CallsOfValue(k, v), CallsOf(more), rest);
      match v {
        case Raw(text) => ReadLeaf(k, RawItem(text), tail, more, rest);
        case Text(s) => ReadLeaf(k, TextItem(s), tail, more, rest);
        case Container(n, inner) =>
          ReadInvertsCalls(inner, [End] + tail);
          ReadContainer(k, n, CallsOf(inner) + ([End] + tail), tail, inner, more, rest);
          ContainerCalls([Put(k, OpenItem(n))], CallsOf(inner), tail);
      }
  }

  lemma ContainerCalls(a: seq<Call>, b: seq<Call>, tail: seq<Call>)
    ensures (a + b + [End]) + tail == a + (b + ([End] + tail))
  {
  }

  lemma ReadNothing(rest: seq<Call>)
    requires rest == [] || rest[0] == End
    ensures ReadCalls(rest) == Parsed(Nil, rest)
  {
  }

  lemma {:induction false} CallsInvertRead(calls: seq<Call>)
    requires ReadCalls(calls).Parsed?
    ensures calls == CallsOf(ReadCalls(calls).elems) + ReadCalls(calls).rest
    decreases |calls|
  {
    if calls != [] && calls[0] != End {
      var a, tail := [calls[0]], calls[1..];
      assert calls == a + tail;
      CallsInvertRead(tail);
      var first := ReadCalls(tail);
      if calls[0].item.OpenItem? {
        CallsInvertReadContainer(calls);
      } else {
        SeqAssoc(a, CallsOf(first.elems), first.rest);
      }
    }
  }

  lemma {:induction false} CallsInvertReadContainer(calls: seq<Call>)
    requires calls != [] && calls[0].Put? && calls[0].item.OpenItem? && ReadCalls(calls).Parsed?
    requires calls[1..] == CallsOf(ReadCalls(calls[1..]).elems) + ReadCalls(calls[1..]).rest
    ensures calls == CallsOf(ReadCalls(calls).elems) + ReadCalls(calls).rest
    decreases |calls|, 0
  {
    hide ReadCalls, CallsOf, CallsOfValue;
    ReadsContainer(calls);
    var first := ReadCalls(calls[1..]);
    var next := first.rest[1..];
    CallsInvertRead(next);
    var second := ReadCalls(next);
    CallsOfContainer(calls[0].key, calls[0].item.node, first.elems, second.elems);
    var a, b, c, d := [calls[0]], CallsOf(first.elems), CallsOf(second.elems), second.rest;
    FirstAndRest(first.rest);
    FirstAndRest(calls);
    ContainerSplit(calls, a, b, c, d, next);
  }

  lemma FirstAndRest<T>(s: seq<T>)
    requires s != []
    ensures s == [s[0]] + s[1..]
  {
  }

  lemma ReadsContainer(calls: seq<Call>)
    requires calls != [] && calls[0].Put? && calls[0].item.OpenItem? && ReadCalls(calls).Parsed?
    ensures ReadCalls(calls[1..]).Parsed? && ReadCalls(calls[1..]).rest != [] && ReadCalls(calls[1..]).rest[0] == End
    ensures var first := ReadCalls(calls[1..]);
      var second := ReadCalls(first.rest[1..]);
      && second.Parsed?
      && ReadCalls(calls) ==
           Parsed(Cons(calls[0].key, Container(calls[0].item.node, first.elems), second.elems), second.rest)
  {
  }

  lemma CallsOfContainer(key: Option<string>, n: Node, inner: Elems, more: Elems)
    ensures CallsOf(Cons(key, Container(n, inner), more)) ==
        ([Put(key, OpenItem(n))] + CallsOf(inner) + [End]) + CallsOf(more)
  {
  }

  lemma ContainerSplit(calls: seq<Call>, a: seq<Call>, b: seq<Call>, c: seq<Call>, d: seq<Call>, next: seq<Call>)
    requires calls == a + (b + ([End] + next)) && next == c + d
    ensures calls == ((a + b + [End]) + c) + d
  {
    ContainerCalls(a, b, next);
    SeqAssoc(a + b + [End], c, d);
  }

  lemma {:induction false} RunConcat(c: Control, a: seq<Call>, b: seq<Call>)
    requires c.Valid()
    ensures Run(c, a + b) == Run(Run(c, a), b)
    decreases |a|
  {
    hide Step;
    if a == [] {
      assert a + b == b;
    } else {
      assert (a + b)[1..] == a[1..] + b;
      RunConcat(Step(c, a[0]), a[1..], b);
    }
  }

  lemma {:induction false} ErrorSticks(c: Control, calls: seq<Call>)
    requires c.Valid() && c.error != OK
    ensures Run(c, calls) == c
    decreases |calls|
  {
    if calls != [] { ErrorSticks(c, calls[1..]); }
  }

  // ---- Errors and the number of calls ----

  /** Which error an ideal writer reports for which call. */
  lemma ErrorsByCause(u: Control, call: Call)
    requires u.Valid() && u.error == OK && u.room == None
    ensures var e, node := Step(u, call).error, u.stack[|u.stack| - 1].node;
      match call
      case End => e == if |u.stack| == 1 then STACK_EMPTY else OK
      case Put(key, item) =>
        if key.Some? && node == ArrayNode then e == NOT_OBJECT
        else if key.None? && node == ObjectNode then e == NOT_ARRAY
        else e == if item.OpenItem? && |u.stack| >= 32 then STACK_FULL else OK
  {
    hide NewLine, Label;
  }

  /** How a document begins and ends, with room for it. */
  lemma OpenedAndClosed(root: Node, pretty: bool, c: Control)
    requires c.Valid() && c.error == OK && c.room == None
    ensures var o := Opened(root, None, pretty);
      && o.out == (if root == ObjectNode then "{" else "[") && o.stack == [Frame(root, 0)]
      && o.error == OK && o.callNo == 1 && o.pretty == pretty
    ensures |c.stack| > 1 ==> Closed(c) == c.(error := NEST_ERROR)
    ensures |c.stack| == 1 ==>
      var bracket := if c.stack[0].node == ObjectNode then "}" else "]";
      Closed(c).error == OK && Closed(c).out == c.out + ((if c.pretty then "\n" else "") + bracket)
  {
    assert "" + [Opener(root)] == [Opener(root)];
  }

  /** What is written all the same: the key or line break of a misplaced insertion, and a bracket without partner. */
  lemma WrittenInError(u: Control, call: Call)
    requires u.Valid() && u.error == OK && u.room == None && Step(u, call).error != OK
    ensures var r, top, level := Step(u, call), u.stack[|u.stack| - 1], |u.stack| - 1;
      match call
      case End =>
        && r.out == u.out + (if top.elementNo > 0 then NewLine(u.pretty, 0) else "")
                    + (if top.node == ObjectNode then "}" else "]")
        && r.stack == u.stack
      case Put(key, item) =>
        if r.error == STACK_FULL
        then r.out[|r.out| - 1..] == if item.node == ObjectNode then "{" else "["
        else
          && r.out == u.out + (NewLine(u.pretty, level) +
               if key.None? then "" else "\"" + key.value + "\"" + ":" + (if u.pretty then " " else ""))
          && r.stack == u.stack
  {
    ErrorsByCause(u, call);
    hide NewLine;
    if call.Put? && Step(u, call).error == STACK_FULL {
      var c := Begin(u, call.key);
      hide Begin;
      assert Step(u, call).out == c.out + [Opener(call.item.node)];
    }
  }

  /** A bounded writer beside an ideal one: the same state if the output fits, and a full buffer otherwise. */
  ghost predicate Cut(c: Control, u: Control) {
    && c.Valid() && u.Valid() && c.room.Some? && u.room == None
    && if |u.out| <= c.room.value then c == u.(room := c.room)
       else c.out == u.out[..c.room.value] && (c.error == BUF_FULL || c.error == STACK_FULL == u.error)
  }

  lemma EmitCut(c: Control, u: Control, text: string)
    requires Cut(c, u)
    ensures Cut(Emit(c, text), Emit(u, text)) && Emit(c, text).room == c.room
  {
    if |u.out| > c.room.value {
      assert c.out + text == u.out[..c.room.value] + text;
      assert (u.out + text)[..c.room.value] == u.out[..c.room.value];
      assert (c.out + text)[..c.room.value] == c.out;
    }
  }

  lemma BeginCut(c: Control, u: Control, key: Option<string>)
    requires Cut(c, u) && c == u.(room := c.room)
    ensures Cut(Begin(c, key), Begin(u, key)) && Begin(c, key).room == c.room
  {
    hide NewLine, Label;
    var text := NewLine(c.pretty, c.Level()) + Label(key, c.pretty);
    var c1, u1 := c.(callNo := c.callNo + 1), u.(callNo := u.callNo + 1);
    if (key.Some? && c.Top().node != ObjectNode) || (key.None? && c.Top().node != ArrayNode) {
      var e := if key.Some? then NOT_OBJECT else NOT_ARRAY;
      EmitCut(c1.(error := e), u1.(error := e), text);
    } else if c.Top().elementNo > 0 {
      EmitCut(Counted(c1), Counted(u1), ",");
      hide Cut;
      EmitCut(Emit(Counted(c1), ","), Emit(Counted(u1), ","), text);
    } else {
      EmitCut(Counted(c1), Counted(u1), text);
    }
  }

  lemma InsertCut(c: Control, u: Control, item: Item)
    requires Cut(c, u) && c == u.(room := c.room)
    ensures Cut(Insert(c, item), Insert(u, item)) && Insert(c, item).room == c.room
  {
    hide Quoted;
    match item
    case RawItem(text) => EmitCut(c, u, text);
    case TextItem(s) => EmitCut(c, u, Quoted(s));
    case OpenItem(n) => EmitCut(c, u, [Opener(n)]);
  }

  lemma EndedCut(c: Control, u: Control)
    requires Cut(c, u) && c == u.(room := c.room)
    ensures Cut(Ended(c), Ended(u)) && Ended(c).room == c.room
  {
    hide NewLine, Emit;
    var text := NewLine(c.pretty, Popped(c).Level());
    if c.Top().elementNo > 0 {
      EmitCut(Popped(c), Popped(u), text);
      hide Cut;
      EmitCut(Emit(Popped(c), text), Emit(Popped(u), text), [Closer(c.Top().node)]);
    } else {
      EmitCut(Popped(c), Popped(u), [Closer(c.Top().node)]);
    }
  }

  lemma InsertExtends(u: Control, item: Item)
    requires u.Valid() && u.room == None
    ensures u.out <= Insert(u, item).out && Insert(u, item).room == None
    ensures u.error == OK ==> Insert(u, item).error == OK || Insert(u, item).error == STACK_FULL
  {
  }

  /** What is written beyond the room is lost, and reported; only too many containers are reported instead. */
  lemma FullBuffer(c: Control, call: Call)
    requires c.Valid() && c.error == OK && c.room.Some?
    ensures var r, u := Step(c, call), Step(c.(room := None), call);
      if |u.out| <= c.room.value then r == u.(room := c.room)
      else r.out == u.out[..c.room.value] && (r.error == BUF_FULL || r.error == STACK_FULL == u.error)
  {
    hide Begin, Insert, Ended, Emit;
    var u := c.(room := None);
    match call
    case End => EndedCut(c, u);
    case Put(key, item) =>
      BeginCut(c, u, key);
      var c1, u1 := Begin(c, key), Begin(u, key);
      if c1.error == OK {
        InsertCut(c1, u1, item);
      } else if u1.error == OK {
        InsertExtends(u1, item);
        assert Insert(u1, item).out[..c.room.value] == u1.out[..c.room.value];
      }
  }

  /** How many of the calls insert something. */
  function Insertions(calls: seq<Call>): nat {
    if calls == [] then 0
    else Insertions(calls[..|calls| - 1]) + if calls[|calls| - 1].Put? then 1 else 0
  }

  /** Insertions are numbered up to and including the one that fails. */
  lemma {:induction false} CallNumber(c: Control, calls: seq<Call>)
    requires c.Valid() && calls != []
    requires Run(c, calls[..|calls| - 1]).error == OK
    ensures Run(c, calls).callNo == c.callNo + Insertions(calls)
    decreases |calls|
  {
    hide Step;
    var most, last := calls[..|calls| - 1], calls[|calls| - 1];
    assert calls == most + [last];
    RunConcat(c, most, [last]);
    var before := Run(c, most);
    assert [last][1..] == [];
    StepCounts(before, last);
    if most != [] {
      assert most == most[..|most| - 1] + [most[|most| - 1]];
      RunConcat(c, most[..|most| - 1], [most[|most| - 1]]);
      if Run(c, most[..|most| - 1]).error != OK { ErrorSticks(Run(c, most[..|most| - 1]), [most[|most| - 1]]); }
      CallNumber(c, most);
    }
  }

  lemma StepCounts(c: Control, call: Call)
    requires c.Valid() && c.error == OK
    ensures Step(c, call).callNo == c.callNo + if call.Put? then 1 else 0
  {
    hide NewLine, Label, Begin;
    if call.Put? {
      BeginCounts(c, call.key);
      hide Ended;
    }
  }

  lemma BeginCounts(c: Control, key: Option<string>)
    requires c.Valid()
    ensures Begin(c, key).callNo == c.callNo + 1
  {
    hide NewLine, Label;
  }

  // ---- What the ideal writer makes of a tree ----

  /** An ideal writer whose innermost container is `n`, with `i` elements, below the containers of `s`. */
  ghost predicate Inside(u: Control, s: seq<Frame>, n: Node, i: nat) {
    u.Valid() && u.error == OK && u.room == None && u.stack == s + [Frame(n, i)]
  }

  /** The text in front of an element's value. */
  function Lead(first: bool, pretty: bool, level: nat, key: Option<string>): string {
    (if first then "" else ",") + NewLine(pretty, level) + Label(key, pretty)
  }

  lemma BeginWrites(u: Control, s: seq<Frame>, n: Node, i: nat, key: Option<string>)
    requires Inside(u, s, n, i)
    ensures var r := Begin(u, key);
      if key.Some? <==> n == ObjectNode
      then Inside(r, s, n, i + 1) && r.out == u.out + Lead(i == 0, u.pretty, |s|, key) && r.pretty == u.pretty
      else r.error != OK
  {
    hide NewLine, Label;
    assert u.stack[..u.Level()] == s;
    var a, b := NewLine(u.pretty, |s|), Label(key, u.pretty);
    assert u.out + ((if i == 0 then "" else ",") + a + b) == (u.out + if i == 0 then "" else ",") + (a + b);
    assert u.out + "" == u.out;
  }

  lemma PutWrites(u: Control, s: seq<Frame>, n: Node, i: nat, key: Option<string>, item: Item, text: string)
    requires Inside(u, s, n, i)
    requires !item.OpenItem? && text == (if item.RawItem? then item.text else Quoted(item.chars))
    ensures var r := Step(u, Put(key, item));
      if key.Some? <==> n == ObjectNode
      then Inside(r, s, n, i + 1) && r.out == u.out + (Lead(i == 0, u.pretty, |s|, key) + text) && r.pretty == u.pretty
      else r.error != OK
  {
    hide Lead, Begin;
    BeginWrites(u, s, n, i, key);
    Assoc(u.out, Lead(i == 0, u.pretty, |s|, key), text);
  }

  lemma OpenWrites(u: Control, s: seq<Frame>, n: Node, i: nat, key: Option<string>, m: Node)
    requires Inside(u, s, n, i)
    ensures var r := Step(u, Put(key, OpenItem(m)));
      if (key.Some? <==> n == ObjectNode) && |s| + 2 <= STACK_DEPTH
      then && Inside(r, s + [Frame(n, i + 1)], m, 0) && r.pretty == u.pretty
           && r.out == u.out + (Lead(i == 0, u.pretty, |s|, key) + [Opener(m)])
      else r.error != OK
  {
    hide Lead, Begin;
    BeginWrites(u, s, n, i, key);
    Assoc(u.out, Lead(i == 0, u.pretty, |s|, key), [Opener(m)]);
  }

  lemma EndWrites(u: Control, s: seq<Frame>, n: Node, i: nat)
    requires Inside(u, s, n, i) && s != []
    ensures var r := Step(u, End);
      && r.Valid() && r.error == OK && r.room == None && r.stack == s && r.pretty == u.pretty
      && r.out == u.out + ((if i == 0 then "" else NewLine(u.pretty, |s| - 1)) + [Closer(n)])
  {
    hide NewLine;
    assert u.stack[..u.Level()] == s;
    var a := if i == 0 then "" else NewLine(u.pretty, |s| - 1);
    Assoc(u.out, a, [Closer(n)]);
    assert u.out + "" == u.out;
  }

  function Len(es: Elems): nat { if es.Nil? then 0 else 1 + Len(es.rest) }

  /** The element fits into its container and below the limit of the stack, on which `depth` containers are open. */
  predicate Fits(k: Option<string>, v: Value, n: Node, depth: nat) {
    && (k.Some? <==> n == ObjectNode) && MatchesInside(v)
    && (v.Container? ==> depth + 1 + Depth(v.elems) <= STACK_DEPTH)
  }

  lemma {:induction false} RunValue(u: Control, s: seq<Frame>, n: Node, i: nat, k: Option<string>, v: Value)
    requires Inside(u, s, n, i)
    ensures var r := Run(u, CallsOfValue(k, v));
      if Fits(k, v, n, |s| + 1)
      then && Inside(r, s, n, i + 1) && r.pretty == u.pretty
           && r.out == u.out + (Lead(i == 0, u.pretty, |s|, k) + PrintValue(v, u.pretty, |s|))
      else r.error != OK
    decreases v, 0
  {
    hide Step, Lead, NewLine;
    match v
    case Raw(text) =>
      PutWrites(u, s, n, i, k, RawItem(text), text);
      RunOne(u, Put(k, RawItem(text)));
    case Text(t) =>
      PutWrites(u, s, n, i, k, TextItem(t), Quoted(t));
      RunOne(u, Put(k, TextItem(t)));
    case Container(m, es) => RunContainer(u, s, n, i, k, m, es);
  }

  lemma RunOne(u: Control, call: Call)
    requires u.Valid()
    ensures Run(u, [call]) == Step(u, call)
  {
    assert Run(u, [call]) == Run(Step(u, [call][0]), [call][1..]);
    assert [call][1..] == [];
  }

  lemma {:induction false} RunContainer(u: Control, s: seq<Frame>, n: Node, i: nat, k: Option<string>, m: Node,
          es: Elems)
    requires Inside(u, s, n, i)
    ensures var v := Container(m, es);
      var r := Run(u, CallsOfValue(k, v));
      if Fits(k, v, n, |s| + 1)
      then && Inside(r, s, n, i + 1) && r.pretty == u.pretty
           && r.out == u.out + (Lead(i == 0, u.pretty, |s|, k) + PrintValue(v, u.pretty, |s|))
      else r.error != OK
    decreases es, 2
  {
    hide Step, Lead, NewLine, Run, CallsOf, PrintElems, Matches, Depth;
    var open := Put(k, OpenItem(m));
    var u1 := Step(u, open);
    var u2 := Run(u1, CallsOf(es));
    OpenWrites(u, s, n, i, k, m);
    RunOne(u, open);
    RunConcat(u, [open], CallsOf(es));
    RunConcat(u, [open] + CallsOf(es), [End]);
    RunOne(u2, End);
    if (k.Some? <==> n == ObjectNode) && |s| + 2 <= STACK_DEPTH {
      var s' := s + [Frame(n, i + 1)];
      RunElems(u1, s', m, 0, es);
      if Matches(m, es) && |s'| + 1 + Depth(es) <= STACK_DEPTH {
        EndWrites(u2, s', m, Len(es));
        ContainerOut(u, u1, u2, Step(u2, End), s, Lead(i == 0, u.pretty, |s|, k), m, es);
      } else {
        ErrorSticks(u2, [End]);
      }
    } else {
      ErrorSticks(u1, CallsOf(es));
      ErrorSticks(u1, [End]);
    }
  }

  lemma ContainerOut(u: Control, u1: Control, u2: Control, u3: Control, s: seq<Frame>, lead: string, m: Node, es: Elems)
    requires u1.out == u.out + (lead + [Opener(m)])
    requires u2.out == u1.out + PrintElems(es, u.pretty, |s| + 1, true)
    requires u3.out == u2.out + ((if Len(es) == 0 then "" else NewLine(u.pretty, |s|)) + [Closer(m)])
    ensures u3.out == u.out + (lead + PrintValue(Container(m, es), u.pretty, |s|))
  {
    var a, b := PrintElems(es, u.pretty, |s| + 1, true), (if Len(es) == 0 then "" else NewLine(u.pretty, |s|));
    assert PrintValue(Container(m, es), u.pretty, |s|) == [Opener(m)] + a + b + [Closer(m)];
    hide PrintElems, NewLine, PrintValue, Len;
    var o, c := [Opener(m)], [Closer(m)];
    Assoc(u.out + (lead + o), a, b + c);
    Assoc(u.out, lead + o, a + (b + c));
    Assoc(lead, o, a + (b + c));
    Assoc(o + a, b, c);
    Assoc(o, a, b + c);
  }

  /** The calls of a tree write the printed tree, if it is well formed and not too deep; otherwise they fail. */
  lemma {:induction false} RunElems(u: Control, s: seq<Frame>, n: Node, i: nat, es: Elems)
    requires Inside(u, s, n, i)
    ensures var r := Run(u, CallsOf(es));
      if Matches(n, es) && |s| + 1 + Depth(es) <= STACK_DEPTH
      then && Inside(r, s, n, i + Len(es)) && r.pretty == u.pretty
           && r.out == u.out + PrintElems(es, u.pretty, |s|, i == 0)
      else r.error != OK
    decreases es, 1
  {
    hide Step, NewLine, Run, CallsOfValue;
    match es
    case Nil =>
      RunNothing(u);
      assert u.out + "" == u.out;
    case Cons(k, v, rest) =>
      var u1 := Run(u, CallsOfValue(k, v));
      RunValue(u, s, n, i, k, v);
      RunConcat(u, CallsOfValue(k, v), CallsOf(rest));
      if Fits(k, v, n, |s| + 1) {
        RunElems(u1, s, n, i + 1, rest);
        Assoc(u.out, Lead(i == 0, u.pretty, |s|, k) + PrintValue(v, u.pretty, |s|),
            PrintElems(rest, u.pretty, |s|, false));
      } else {
        ErrorSticks(u1, CallsOf(rest));
      }
  }

  lemma RunNothing(u: Control)
    requires u.Valid()
    ensures Run(u, []) == u
  {
  }

  /** Calls that leave a container open never get back to the stack they started from. */
  lemma {:induction false} UnclosedStaysOpen(u: Control, s: seq<Frame>, n: Node, i: nat, calls: seq<Call>)
    requires Inside(u, s, n, i) && ReadCalls(calls) == Unclosed
    ensures var r := Run(u, calls); r.error == OK ==> |r.stack| > |s| + 1
    decreases |calls|, 0
  {
    hide Step, Lead, NewLine;
    var first, tail := calls[0], calls[1..];
    var u1 := Step(u, first);
    match first.item {
      case RawItem(text) => PutWrites(u, s, n, i, first.key, first.item, text);
      case TextItem(t) => PutWrites(u, s, n, i, first.key, first.item, Quoted(t));
      case OpenItem(m) => OpenWrites(u, s, n, i, first.key, m);
    }
    if u1.error != OK {
      ErrorSticks(u1, tail);
    } else if first.item.OpenItem? {
      UnclosedContainer(u1, s, n, i, first.item.node, tail);
    } else {
      UnclosedStaysOpen(u1, s, n, i + 1, tail);
    }
  }

  lemma {:induction false} UnclosedContainer(u: Control, s: seq<Frame>, n: Node, i: nat, m: Node, calls: seq<Call>)
    requires Inside(u, s + [Frame(n, i + 1)], m, 0)
    requires match ReadCalls(calls)
      case Unclosed => true
      case Parsed(_, rest) => rest == [] || ReadCalls(rest[1..]) == Unclosed
    ensures var r := Run(u, calls); r.error == OK ==> |r.stack| > |s| + 1
    decreases |calls|, 1
  {
    hide Step, Lead, NewLine;
    var s' := s + [Frame(n, i + 1)];
    match ReadCalls(calls)
    case Unclosed => UnclosedStaysOpen(u, s', m, 0, calls);
    case Parsed(inner, rest) =>
      CallsInvertRead(calls);
      RunConcat(u, CallsOf(inner), rest);
      RunElems(u, s', m, 0, inner);
      var u2 := Run(u, CallsOf(inner));
      if u2.error != OK {
        ErrorSticks(u2, rest);
      } else if rest != [] {
        EndWrites(u2, s', m, Len(inner));
        UnclosedStaysOpen(Step(u2, End), s, n, i + 1, rest[1..]);
      }
  }

  /** Calls that describe a well-formed document within the limit of the stack. */
  ghost predicate Describe(calls: seq<Call>, root: Node, es: Elems) {
    calls == CallsOf(es) && Matches(root, es) && 1 + Depth(es) <= 32
  }

  /** ... and whose printed form fits into `room` characters. */
  ghost predicate DescribeWithin(calls: seq<Call>, root: Node, es: Elems, room: nat, pretty: bool) {
    Describe(calls, root, es) && |Print(root, es, pretty)| <= room
  }

  lemma TooManyEnds(u: Control, n: Node, i: nat, rest: seq<Call>)
    requires Inside(u, [], n, i) && rest != [] && rest[0] == End
    ensures Run(u, rest).error != OK
  {
    ErrorSticks(Step(u, End), rest[1..]);
  }

  lemma ClosedWrites(u: Control, n: Node, i: nat)
    requires Inside(u, [], n, i)
    ensures Closed(u).error == OK && Closed(u).out == u.out + (if u.pretty then "\n" else "") + [Closer(n)]
  {
    var a := if u.pretty then "\n" else "";
    Assoc(u.out, a, [Closer(n)]);
  }

  predicate Accepted(root: Node, calls: seq<Call>) {
    var r := ReadCalls(calls);
    r.Parsed? && r.rest == [] && Matches(root, r.elems) && 1 + Depth(r.elems) <= STACK_DEPTH
  }

  /** Without a limit on its room, a session succeeds exactly on documents, and writes them. */
  lemma IdealSession(root: Node, calls: seq<Call>, pretty: bool)
    ensures Session(root, calls, None, pretty).error == OK <==> Accepted(root, calls)
    ensures Accepted(root, calls) ==>
        Session(root, calls, None, pretty).out == Print(root, ReadCalls(calls).elems, pretty)
  {
    hide Step, Run, Closed;
    var u := Opened(root, None, pretty);
    assert Inside(u, [], root, 0) && u.out == [Opener(root)] && u.pretty == pretty;
    match ReadCalls(calls)
    case Unclosed =>
      UnclosedStaysOpen(u, [], root, 0, calls);
      ClosedFails(Run(u, calls));
    case Parsed(es, rest) =>
      CallsInvertRead(calls);
      RunConcat(u, CallsOf(es), rest);
      RunElems(u, [], root, 0, es);
      var u1 := Run(u, CallsOf(es));
      if u1.error != OK {
        ErrorSticks(u1, rest);
        ClosedFails(u1);
      } else if rest != [] {
        TooManyEnds(u1, root, Len(es), rest);
        ClosedFails(Run(u1, rest));
      } else {
        RunNothing(u1);
        ClosedWrites(u1, root, Len(es));
      }
  }

  lemma ClosedFails(c: Control)
    requires c.Valid() && (c.error == OK ==> |c.stack| > 1)
    ensures Closed(c).error != OK
  {
  }

  /**
   Acceptance: a session ends without an error exactly if its calls are well nested, insert members
   into objects and elements into arrays, never have more than 32 containers open, and write no more
   than fits into the buffer.
   */
  lemma SessionSucceedsExactlyWhen(root: Node, calls: seq<Call>, room: nat, pretty: bool)
    ensures Session(root, calls, Some(room), pretty).error == OK <==>
      exists es :: DescribeWithin(calls, root, es, room, pretty)
  {
    hide Session, Run, Print, CallsOf;
    IdealSession(root, calls, pretty);
    SessionFits(root, calls, room, pretty);
    if Session(root, calls, Some(room), pretty).error == OK {
      CallsInvertRead(calls);
      var es := ReadCalls(calls).elems;
      assert CallsOf(es) + [] == CallsOf(es);
      assert DescribeWithin(calls, root, es, room, pretty);
    }
    if exists es :: DescribeWithin(calls, root, es, room, pretty) {
      var es :| DescribeWithin(calls, root, es, room, pretty);
      assert CallsOf(es) + [] == CallsOf(es);
      ReadInvertsCalls(es, []);
    }
  }

  /** What a successful session leaves in the buffer is the document, and reads back as the document. */
  lemma SessionWritesDocument(root: Node, es: Elems, room: nat, pretty: bool)
    requires Session(root, CallsOf(es), Some(room), pretty).error == OK
    ensures Session(root, CallsOf(es), Some(room), pretty).out == Print(root, es, pretty)
    ensures Plain(es) ==> Parse(Session(root, CallsOf(es), Some(room), pretty).out) == Some(Container(root, es))
  {
    hide Session, Run, Print, CallsOf, Parse;
    IdealSession(root, CallsOf(es), pretty);
    SessionFits(root, CallsOf(es), room, pretty);
    assert CallsOf(es) + [] == CallsOf(es);
    ReadInvertsCalls(es, []);
    if Plain(es) { ParseInvertsPrint(root, es, pretty); }
  }

  // ---- The writer itself ----

  lemma EmitFirst(c: Control, text: string, k: nat)
    requires c.Valid() && k < |text|
    ensures Emit(Emit(c, text[..k]), [text[k]]) == Emit(c, text[..k + 1])
  {
    assert text[..k + 1] == text[..k] + [text[k]];
    EmitTwice(c, text[..k], [text[k]]);
  }

  lemma EmitAll(c: Control, text: string)
    requires c.Valid()
    ensures Emit(c, text[..|text|]) == Emit(c, text)
    ensures c.error == OK || c.room == None || |c.out| <= c.room.value
  {
    assert text[..|text|] == text;
  }

  lemma KeyTexts(c: Control, a: string, key: string, pretty: bool)
    requires c.Valid()
    ensures var c3 := Emit(Emit(Emit(c, a), Quoted(key)), [':']);
      (if pretty then Emit(c3, [' ']) else c3) == Emit(c, a + Label(Some(key), pretty))
  {
    hide Emit, Quoted;
    EmitTwice(c, a, Quoted(key));
    EmitTwice(c, a + Quoted(key), [':']);
    assert a + Quoted(key) + [':'] == a + (Quoted(key) + ":" + "");
    if pretty {
      EmitTwice(c, a + Quoted(key) + [':'], [' ']);
      assert a + Quoted(key) + [':'] + [' '] == a + (Quoted(key) + ":" + " ");
    }
  }

  predicate EndsIn(s: string, text: string) { |text| <= |s| && s[|s| - |text|..] == text }

  lemma PutEndsIn(c: Control, key: Option<string>, text: string)
    requires c.Valid()
    ensures Step(c, Put(key, RawItem(text))).error == OK ==> EndsIn(Step(c, Put(key, RawItem(text))).out, text)
  {
    hide Begin;
  }

  class Writer {
    const buffer: array<char>
    var bufp: nat
    const nodeStack: array<Frame>
    var stackpos: nat
    var error: Error
    var callNo: nat
    const isPretty: bool
    const tmpbuf: array<char>

    /** Behind what has been written, the buffer is as jwOpen has cleared it. */
    ghost predicate Valid()
      reads this, buffer
    {
      && tmpbuf != buffer && tmpbuf.Length == 32 && bufp <= buffer.Length && nodeStack.Length == STACK_DEPTH
      && stackpos < STACK_DEPTH && forall k | bufp <= k < buffer.Length :: buffer[k] == '\0'
    }

    ghost function View(): (c: Control)
      requires Valid()
      reads this, buffer, nodeStack
      ensures c.Valid() && c.Level() == stackpos && c.Top() == nodeStack[stackpos]
    {
      Control(buffer[..bufp], Some(buffer.Length), nodeStack[..stackpos + 1], error, callNo, isPretty)
    }

    /** jwOpen, on a buffer of `buflen` characters, all of which it clears. */
    constructor (buflen: nat, rootType: Node, pretty: bool)
      ensures Valid() && fresh(buffer) && fresh(nodeStack) && fresh(tmpbuf)
      ensures buffer.Length == buflen && View() == Opened(rootType, Some(buflen), pretty)
    {
      buffer := new char[buflen](_ => '\0');
      nodeStack := new Frame[STACK_DEPTH](_ => Frame(rootType, 0));
      tmpbuf := new char[32];
      bufp, stackpos, error, callNo, isPretty := 0, 0, OK, 1, pretty;
      new;
      Putch(Opener(rootType));
    }

    method Putch(c: char)
      requires Valid()
      modifies this`bufp, this`error, buffer
      ensures Valid() && View() == Emit(old(View()), [c])
    {
      if bufp >= buffer.Length {
        error := BUF_FULL;
      } else {
        buffer[bufp] := c;
        bufp := bufp + 1;
      }
    }

    method Putraw(text: string)
      requires Valid()
      modifies this`bufp, this`error, buffer
      ensures Valid() && View() == Emit(old(View()), text)
    {
      hide Emit;
      ghost var c := View();
      EmitNothing(c);
      var k := 0;
      while k < |text|
        invariant k <= |text| && Valid() && View() == Emit(c, text[..k])
      {
        EmitFirst(c, text, k);
        Putch(text[k]);
        k := k + 1;
      }
      EmitAll(c, text);
    }

    method Putstr(text: string)
      requires Valid()
      modifies this`bufp, this`error, buffer
      ensures Valid() && View() == Emit(old(View()), Quoted(text))
    {
      hide Emit;
      ghost var c := View();
      Putch('"');
      Putraw(text);
      Putch('"');
      EmitTwice(c, ['"'], text);
      EmitTwice(c, ['"'] + text, ['"']);
      assert ['"'] + text + ['"'] == Quoted(text);
    }

    /** A line break and the indentation, if the output is to be pretty. */
    method Pretty()
      requires Valid()
      modifies this`bufp, this`error, buffer
      ensures Valid() && View() == Emit(old(View()), NewLine(isPretty, stackpos))
    {
      hide Emit;
      ghost var c := View();
      EmitNothing(c);
      if isPretty {
        Putch('\n');
        var i := 0;
        assert "\n" + Indent(0) == "\n";
        while i < stackpos + 1
          invariant i <= stackpos + 1 && Valid() && View() == Emit(c, "\n" + Indent(i))
        {
          EmitTwice(c, "\n" + Indent(i), "    ");
          assert "\n" + Indent(i) + "    " == "\n" + Indent(i + 1);
          Putraw("    ");
          i := i + 1;
        }
      }
    }

    method Push(node: Node)
      requires Valid()
      modifies this`stackpos, this`error, nodeStack
      ensures Valid() && View() == Pushed(old(View()), node)
    {
      if stackpos + 1 >= STACK_DEPTH {
        error := STACK_FULL;
      } else {
        stackpos := stackpos + 1;
        nodeStack[stackpos] := Frame(node, 0);
      }
    }

    method Pop() returns (node: Node)
      requires Valid()
      modifies this`stackpos, this`error
      ensures Valid() && View() == Popped(old(View())) && node == old(View()).Top().node
    {
      node := nodeStack[stackpos].node;
      if stackpos == 0 {
        error := STACK_EMPTY;
      } else {
        stackpos := stackpos - 1;
      }
    }

    /** Counts the element and writes the comma in front of all but the first. */
    method Count()
      requires Valid()
      modifies this`bufp, this`error, buffer, nodeStack
      ensures Valid()
      ensures View() ==
        if old(View()).Top().elementNo > 0 then Emit(Counted(old(View())), ",") else Counted(old(View()))
    {
      var frame := nodeStack[stackpos];
      nodeStack[stackpos] := frame.(elementNo := frame.elementNo + 1);
      assert View() == Counted(old(View()));
      if frame.elementNo > 0 {
        Putch(',');
      }
    }

    /** A line break if the output is to be pretty, the key, and the colon. */
    method WriteKey(key: string)
      requires Valid()
      modifies this`bufp, this`error, buffer
      ensures Valid() && View() == Emit(old(View()), NewLine(isPretty, stackpos) + Label(Some(key), isPretty))
    {
      hide Emit, NewLine, Quoted;
      ghost var c, a := View(), NewLine(isPretty, stackpos);
      Pretty();
      Putstr(key);
      Putch(':');
      KeyTexts(c, a, key, isPretty);
      if isPretty {
        Putch(' ');
      }
    }

    /** The common part of the object functions. */
    method Obj(key: string) returns (e: Error)
      requires Valid()
      modifies this`bufp, this`error, this`callNo, buffer, nodeStack
      ensures Valid() && e == error
      ensures View() == if old(error) != OK then old(View()) else Begin(old(View()), Some(key))
    {
      hide Emit, Counted, NewLine;
      if error == OK {
        callNo := callNo + 1;
        if nodeStack[stackpos].node != ObjectNode {
          error := NOT_OBJECT;
        } else {
          Count();
        }
        WriteKey(key);
      }
      e := error;
    }

    /** The common part of the array functions. */
    method Arr() returns (e: Error)
      requires Valid()
      modifies this`bufp, this`error, this`callNo, buffer, nodeStack
      ensures Valid() && e == error
      ensures View() == if old(error) != OK then old(View()) else Begin(old(View()), None)
    {
      hide Emit, Counted, NewLine;
      if error == OK {
        callNo := callNo + 1;
        if nodeStack[stackpos].node != ArrayNode {
          error := NOT_ARRAY;
        } else {
          Count();
        }
        assert NewLine(isPretty, stackpos) + "" == NewLine(isPretty, stackpos);
        Pretty();
      }
      e := error;
    }

    /** What the insertions do behind the common part. */
    method Put(item: Item)
      requires Valid()
      modifies this`bufp, this`error, this`stackpos, buffer, nodeStack
      ensures Valid() && View() == Insert(old(View()), item)
    {
      hide Emit, Pushed;
      match item
      case RawItem(text) => Putraw(text);
      case TextItem(s) => Putstr(s);
      case OpenItem(n) =>
        Putch(Opener(n));
        Push(n);
    }

    /** Any of the insertion functions. */
    method Insertion(key: Option<string>, item: Item)
      requires Valid()
      modifies this`bufp, this`error, this`callNo, this`stackpos, buffer, nodeStack
      ensures Valid() && View() == Step(old(View()), Call.Put(key, item))
    {
      hide Begin, Insert;
      var e;
      if key.Some? {
        e := Obj(key.value);
      } else {
        e := Arr();
      }
      if e == OK {
        Put(item);
      }
    }

    /** Inserts an integer, printed into the temporary buffer first. */
    method InsertionInt(key: Option<string>, value: int)
      requires Valid() && -INT_MAX - 1 <= value <= INT_MAX
      modifies this`bufp, this`error, this`callNo, this`stackpos, buffer, nodeStack, tmpbuf
      ensures Valid() && View() == Step(old(View()), Call.Put(key, RawItem(Decimal.Itoa(value))))
      ensures Decimal.ParseInt(Decimal.Itoa(value)) == value && IsNumber(Decimal.Itoa(value))
      ensures error == OK ==> EndsIn(View().out, Decimal.Itoa(value))
    {
      hide Step, Decimal.CString, Decimal.Itoa, Decimal.ParseInt, IsNumber;
      Decimal.ModpItoa10(value, tmpbuf);
      PutEndsIn(View(), key, Decimal.Itoa(value));
      Insertion(key, RawItem(Decimal.CString(tmpbuf[..])));
    }

    /** Inserts a number with at most six places, or as `sprintf` prints it if it is large. */
    method InsertionDouble(key: Option<string>, value: real, sprintf: real -> string)
      requires Valid() && Decimal.Exponential(sprintf)
      modifies this`bufp, this`error, this`callNo, this`stackpos, buffer, nodeStack, tmpbuf
      ensures Valid() && View() == Step(old(View()), Call.Put(key, RawItem(Decimal.DoubleText(value, 6, sprintf))))
      ensures if -2147483647.0 <= value <= 2147483647.0
        then Decimal.Prints(Decimal.DoubleText(value, 6, sprintf), value, 6)
        else Decimal.DoubleText(value, 6, sprintf) == sprintf(value)
      ensures error == OK ==> EndsIn(View().out, Decimal.DoubleText(value, 6, sprintf))
    {
      hide Step, Decimal.CString, Decimal.DoubleText, Decimal.Prints;
      Decimal.ModpDtoa2(value, tmpbuf, 6, sprintf);
      Decimal.DoubleTextPrints(value, 6, sprintf);
      PutEndsIn(View(), key, Decimal.DoubleText(value, 6, sprintf));
      Insertion(key, RawItem(Decimal.CString(tmpbuf[..])));
    }

    /** Ends the innermost container. */
    method End() returns (e: Error)
      requires Valid()
      modifies this`bufp, this`error, this`stackpos, buffer
      ensures Valid() && e == error && View() == Step(old(View()), Call.End)
    {
      hide Emit, Popped, NewLine;
      if error == OK {
        var lastElemNo := nodeStack[stackpos].elementNo;
        var node := Pop();
        if lastElemNo > 0 {
          Pretty();
        }
        Putch(Closer(node));
      }
      e := error;
    }

    /** Ends the document. */
    method Close() returns (e: Error)
      requires Valid()
      modifies this`bufp, this`error, buffer
      ensures Valid() && e == error && View() == Closed(old(View()))
    {
      hide Emit;
      if error == OK {
        if stackpos == 0 {
          ghost var c := View();
          var node := nodeStack[0].node;
          EmitTwice(c, "\n", [Closer(node)]);
          assert "" + [Closer(node)] == [Closer(node)];
          if isPretty {
            Putch('\n');
          }
          Putch(Closer(node));
        } else {
          error := NEST_ERROR;
        }
      }
      e := error;
    }
  }

  lemma EmitNothing(c: Control)
    requires c.Valid()
    ensures Emit(c, "") == c
  {
    assert c.out + "" == c.out;
  }

  /**
   A whole session with the writer: it succeeds exactly on documents that fit, and the buffer then
   holds the document, as a C string if there is room for its end.
   */
  method Write(calls: seq<Call>, buflen: nat, root: Node, pretty: bool) returns (w: Writer, e: Error)
    ensures w.Valid() && e == w.error && w.buffer.Length == buflen
    ensures e == OK <==> exists es :: DescribeWithin(calls, root, es, buflen, pretty)
    ensures w.View() == Session(root, calls, Some(buflen), pretty)
    ensures forall es | Describe(calls, root, es) && e == OK ::
              && w.buffer[..w.bufp] == Print(root, es, pretty)
              && (w.bufp < buflen && '\0' !in Print(root, es, pretty) ==>
                    Decimal.CString(w.buffer[..]) == Print(root, es, pretty))
  {
    hide Step, Opened, Closed, Print, Describe, DescribeWithin, Decimal.CString;
    w := new Writer(buflen, root, pretty);
    var i := 0;
    assert calls[0..] == calls;
    while i < |calls|
      invariant i <= |calls| && w.Valid() && fresh(w) && fresh(w.buffer) && fresh(w.nodeStack)
      invariant Run(w.View(), calls[i..]) == Run(Opened(root, Some(buflen), pretty), calls)
    {
      assert calls[i..][0] == calls[i] && calls[i..][1..] == calls[i + 1..];
      match calls[i] {
        case Put(key, item) => w.Insertion(key, item);
        case End => var _ := w.End();
      }
      i := i + 1;
    }
    RunNothing(w.View());
    e := w.Close();
    SessionSucceedsExactlyWhen(root, calls, buflen, pretty);
    forall es | Describe(calls, root, es) && e == OK
      ensures w.buffer[..w.bufp] == Print(root, es, pretty)
      ensures w.bufp < buflen && '\0' !in Print(root, es, pretty) ==>
                Decimal.CString(w.buffer[..]) == Print(root, es, pretty)
    {
      DescribedCalls(calls, root, es);
      SessionWritesDocument(root, es, buflen, pretty);
      if w.bufp < buflen && '\0' !in Print(root, es, pretty) {
        ghost var text := Print(root, es, pretty);
        assert w.buffer[..] == text + ['\0'] + w.buffer[w.bufp + 1..];
        Decimal.CStringOf(text, w.buffer[w.bufp + 1..]);
      }
    }
  }

  lemma DescribedCalls(calls: seq<Call>, root: Node, es: Elems)
    requires Describe(calls, root, es)
    ensures calls == CallsOf(es)
  {
  }
}
