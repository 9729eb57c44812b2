/** JSON documents as trees, their two printed forms, and the grammar that reads them back. */
module JsonTree {
  import opened Wrappers

  datatype Node = ObjectNode | ArrayNode

  datatype Value =
    | Raw(text: string)
    | Text(chars: string)
    | Container(node: Node, elems: Elems)

  /** The elements of a container, each with a key if the container is an object. */
  datatype Elems = Nil | Cons(key: Option<string>, value: Value, rest: Elems)

  /** Keys occur exactly in objects. */
  predicate Matches(node: Node, es: Elems)
    decreases es
  {
    match es
    case Nil => true
    case Cons(k, v, rest) => (k.Some? <==> node == ObjectNode) && MatchesInside(v) && Matches(node, rest)
  }

  predicate MatchesInside(v: Value)
    decreases v
  {
    v.Container? ==> Matches(v.node, v.elems)
  }

  /** How many containers are open at most inside a list of elements. */
  function Depth(es: Elems): nat {
    match es
    case Nil => 0
    case Cons(_, v, rest) =>
      var here := if v.Container? then 1 + Depth(v.elems) else 0;
      if here >= Depth(rest) then here else Depth(rest)
  }

  // ---- Printing ----

  function Opener(n: Node): char { if n == ObjectNode then '{' else '[' }

  function Closer(n: Node): char { if n == ObjectNode then '}' else ']' }

  function Indent(n: nat): string { if n == 0 then "" else Indent(n - 1) + "    " }

  /** A line break, and indentation below `level` open containers. */
  function NewLine(pretty: bool, level: nat): string {
    if pretty then "\n" + Indent(level + 1) else ""
  }

  function Quoted(s: string): string { "\"" + s + "\"" }

  function Label(key: Option<string>, pretty: bool): string {
    match key
    case None => ""
    case Some(k) => Quoted(k) + ":" + if pretty then " " else ""
  }

  function PrintValue(v: Value, pretty: bool, level: nat): string {
    match v
    case Raw(text) => text
    case Text(s) => Quoted(s)
    case Container(n, es) =>
      [Opener(n)] + PrintElems(es, pretty, level + 1, true)
      + (if es.Nil? then "" else NewLine(pretty, level)) + [Closer(n)]
  }

  function PrintElems(es: Elems, pretty: bool, level: nat, first: bool): string {
    match es
    case Nil => ""
    case Cons(k, v, rest) =>
      (if first then "" else ",") + NewLine(pretty, level) + Label(k, pretty) + PrintValue(v, pretty, level)
      + PrintElems(rest, pretty, level, false)
  }

  function Print(n: Node, es: Elems, pretty: bool): string {
    [Opener(n)] + PrintElems(es, pretty, 0, true) + (if pretty then "\n" else "") + [Closer(n)]
  }

  /** Every line begins with four blanks for each open container. */
  lemma {:induction false} LineBreak(level: nat)
    ensures var s := NewLine(true, level);
      |s| == 4 * level + 5 && s[0] == '\n' && forall i | 1 <= i < |s| :: s[i] == ' '
    ensures NewLine(false, level) == ""
  {
    IndentBlanks(level + 1);
  }

  lemma {:induction false} IndentBlanks(n: nat)
    ensures |Indent(n)| == 4 * n && forall i | 0 <= i < 4 * n :: Indent(n)[i] == ' '
  {
    if n > 0 { IndentBlanks(n - 1); }
  }

  lemma Assoc(a: string, b: string, c: string)
    ensures (a + b) + c == a + (b + c)
  {
  }

  lemma LineBreaks()
    ensures NewLine(true, 0) == "\n    " && NewLine(true, 1) == "\n        "
  {
    assert Indent(1) == "    " && Indent(2) == "        ";
  }

  /** A member of the outermost object, in the pretty form. */
  lemma PrettyMember(k: string, v: Value, rest: Elems, first: bool)
    ensures PrintElems(Cons(Some(k), v, rest), true, 0, first) ==
      (if first then "" else ",") + "\n    \"" + k + "\": " + PrintValue(v, true, 0) + PrintElems(rest, true, 0, false)
  {
    LineBreaks();
    hide NewLine, PrintValue;
    var c := if first then "" else ",";
    assert c + "\n    " + "\"" + k + "\"" + ":" + " " == c + "\n    \"" + k + "\": ";
    assert c + "\n    " + (("\"" + k + "\"") + ":" + " ") == c + "\n    " + "\"" + k + "\"" + ":" + " ";
  }

  /** The whole document, and a container among its members, in the pretty form. */
  lemma PrettyContainers(n: Node, es: Elems)
    ensures Print(n, es, true) ==
      (if n == ObjectNode then "{" else "[") + PrintElems(es, true, 0, true) +
      (if n == ObjectNode then "\n}" else "\n]")
    ensures PrintValue(Container(n, es), true, 0) ==
      (if n == ObjectNode then "{" else "[") + PrintElems(es, true, 1, true) +
      (if es.Nil? then "" else "\n    ") + (if n == ObjectNode then "}" else "]")
  {
    LineBreaks();
    hide NewLine, PrintElems;
    var a, b := [Opener(n)] + PrintElems(es, true, 0, true), [Closer(n)];
    Assoc(a, "\n", b);
    assert "\n" + b == if n == ObjectNode then "\n}" else "\n]";
  }

  // ---- Reading: the grammar of section 2 of RFC 8259, for strings without escapes ----

  datatype Result<+T> = Fail | Read(value: T, rest: string)

  predicate IsSpace(c: char) { c == ' ' || c == '\t' || c == '\n' || c == '\r' }

  function SkipSpace(s: string): (r: string)
    ensures |r| <= |s|
  {
    if s != "" && IsSpace(s[0]) then SkipSpace(s[1..]) else s
  }

  /** Characters that a string holds as they are. */
  predicate Unescaped(c: char) { c >= ' ' && c != '"' && c != '\\' }

  /** Behind the opening quotation mark. */
  function ReadString(s: string): (r: Result<string>)
    ensures r.Read? ==> |r.rest| < |s|
  {
    if s == "" then Fail
    else if s[0] == '"' then Read("", s[1..])
    else if !Unescaped(s[0]) then Fail
    else match ReadString(s[1..])
      case Fail => Fail
      case Read(tail, rest) => Read([s[0]] + tail, rest)
  }

  predicate IsDigit(c: char) { '0' <= c <= '9' }

  predicate Digits(s: string) { forall i | 0 <= i < |s| :: IsDigit(s[i]) }

  /** An unsigned number without exponent: digits without a leading zero, and perhaps a fraction. */
  predicate IsUnsigned(s: string) {
    exists n | 0 < n <= |s| ::
      && Digits(s[..n]) && (n == 1 || s[0] != '0')
      && (n == |s| || (s[n] == '.' && n + 1 < |s| && Digits(s[n + 1..])))
  }

  predicate IsNumber(s: string) {
    if s != "" && s[0] == '-' then IsUnsigned(s[1..]) else IsUnsigned(s)
  }

  predicate IsLiteral(s: string) { s == "true" || s == "false" || s == "null" || IsNumber(s) }

  /** Characters that a number or a name may consist of. */
  predicate InLiteral(c: char) { IsDigit(c) || c == '-' || c == '.' || 'a' <= c <= 'z' }

  function LiteralEnd(s: string): (n: nat)
    ensures n <= |s|
    ensures forall i | 0 <= i < n :: InLiteral(s[i])
    ensures n < |s| ==> !InLiteral(s[n])
  {
    if s != "" && InLiteral(s[0]) then 1 + LiteralEnd(s[1..]) else 0
  }

  function ReadLiteral(s: string): (r: Result<Value>)
    ensures r.Read? ==> |r.rest| < |s|
  {
    var n := LiteralEnd(s);
    if n > 0 && IsLiteral(s[..n]) then Read(Raw(s[..n]), s[n..]) else Fail
  }

  function ReadValue(s0: string): (r: Result<Value>)
    ensures r.Read? ==> |r.rest| < |s0|
    decreases |s0|, 0
  {
    var s := SkipSpace(s0);
    if s == "" then Fail
    else if s[0] == '{' || s[0] == '[' then
      var n := if s[0] == '{' then ObjectNode else ArrayNode;
      match ReadElems(n, s[1..], true)
      case Fail => Fail
      case Read(es, rest) => Read(Container(n, es), rest)
    else if s[0] == '"' then
      match ReadString(s[1..])
      case Fail => Fail
      case Read(t, rest) => Read(Text(t), rest)
    else ReadLiteral(s)
  }

  /** The key of a member, and the colon behind it. */
  function ReadLabel(n: Node, s0: string): (r: Result<Option<string>>)
    ensures r.Read? ==> |r.rest| <= |s0|
  {
    var s := SkipSpace(s0);
    if n == ArrayNode then Read(None, s0)
    else if s == "" || s[0] != '"' then Fail
    else match ReadString(s[1..])
      case Fail => Fail
      case Read(k, rest) =>
        var t := SkipSpace(rest);
        if t == "" || t[0] != ':' then Fail else Read(Some(k), t[1..])
  }

  /** The elements of a container up to its closing bracket. */
  function ReadElems(n: Node, s0: string, first: bool): (r: Result<Elems>)
    ensures r.Read? ==> |r.rest| < |s0|
    decreases |s0|, 1
  {
    var s := SkipSpace(s0);
    if s == "" then Fail
    else if s[0] == (if n == ObjectNode then '}' else ']') then Read(Nil, s[1..])
    else if !first && s[0] != ',' then Fail
    else match ReadLabel(n, if first then s else s[1..])
      case Fail => Fail
      case Read(k, t) =>
        match ReadValue(t)
        case Fail => Fail
        case Read(v, u) =>
          match ReadElems(n, u, false)
          case Fail => Fail
          case Read(es, rest) => Read(Cons(k, v, es), rest)
  }

  /** A whole text: one value with nothing but white space around it. */
  function Parse(s: string): Option<Value> {
    match ReadValue(s)
    case Fail => None
    case Read(v, rest) => if SkipSpace(rest) == "" then Some(v) else None
  }

  // ---- Reading back what was printed ----

  /** Strings that need no escaping, and raw texts that are literals. */
  predicate PlainString(s: string) { forall i | 0 <= i < |s| :: Unescaped(s[i]) }

  predicate Plain(es: Elems)
    decreases es
  {
    match es
    case Nil => true
    case Cons(k, v, rest) => (k.Some? ==> PlainString(k.value)) && PlainValue(v) && Plain(rest)
  }

  predicate PlainValue(v: Value)
    decreases v
  {
    match v
    case Raw(text) => IsLiteral(text)
    case Text(s) => PlainString(s)
    case Container(_, es) => Plain(es)
  }

  lemma SkipNothing(s: string)
    requires s == "" || !IsSpace(s[0])
    ensures SkipSpace(s) == s
  {
  }

  lemma {:induction false} SkipAll(w: string, s: string)
    requires forall i | 0 <= i < |w| :: IsSpace(w[i])
    ensures SkipSpace(w + s) == SkipSpace(s)
  {
    if w == "" {
      assert w + s == s;
    } else {
      assert (w + s)[1..] == w[1..] + s;
      SkipAll(w[1..], s);
    }
  }

  lemma {:induction false} IndentIsSpace(n: nat)
    ensures forall i | 0 <= i < |Indent(n)| :: IsSpace(Indent(n)[i])
  {
    if n > 0 { IndentIsSpace(n - 1); }
  }

  lemma SkipNewLine(pretty: bool, level: nat, s: string)
    ensures SkipSpace(NewLine(pretty, level) + s) == SkipSpace(s)
  {
    IndentIsSpace(level + 1);
    SkipAll(NewLine(pretty, level), s);
  }

  lemma {:induction false} ReadsString(s: string, rest: string)
    requires PlainString(s)
    ensures ReadString(s + "\"" + rest) == Read(s, rest)
  {
    var all := s + "\"" + rest;
    if s == "" {
      assert all[0] == '"' && all[1..] == rest;
    } else {
      assert all[0] == s[0] && all[1..] == s[1..] + "\"" + rest;
      ReadsString(s[1..], rest);
      assert [s[0]] + s[1..] == s;
    }
  }

  lemma {:induction false} LiteralEnds(s: string, rest: string)
    requires forall i | 0 <= i < |s| :: InLiteral(s[i])
    requires rest == "" || !InLiteral(rest[0])
    ensures LiteralEnd(s + rest) == |s|
  {
    if s == "" {
      assert s + rest == rest;
    } else {
      assert (s + rest)[1..] == s[1..] + rest;
      LiteralEnds(s[1..], rest);
    }
  }

  lemma LiteralChars(s: string)
    requires IsLiteral(s)
    ensures s != "" && forall i | 0 <= i < |s| :: InLiteral(s[i])
  {
    if IsNumber(s) {
      var t := if s != "" && s[0] == '-' then s[1..] else s;
      UnsignedChars(t);
      forall i | 0 <= i < |s|
        ensures InLiteral(s[i])
      {
        if s[0] == '-' && i > 0 { assert s[i] == t[i - 1]; }
      }
    }
  }

  lemma UnsignedChars(s: string)
    requires IsUnsigned(s)
    ensures s != "" && forall i | 0 <= i < |s| :: InLiteral(s[i])
  {
    var n :| 0 < n <= |s| && Digits(s[..n]) && (n == 1 || s[0] != '0') &&
      (n == |s| || (s[n] == '.' && n + 1 < |s| && Digits(s[n + 1..])));
    forall i | 0 <= i < |s|
      ensures InLiteral(s[i])
    {
      if i < n { assert s[..n][i] == s[i]; }
      if i > n { assert s[n + 1..][i - n - 1] == s[i]; }
    }
  }

  /** What may follow a value in a printed text. */
  predicate Delimits(s: string) { s != "" && (s[0] == ',' || s[0] == '\n' || s[0] == ']' || s[0] == '}') }

  lemma ReadsLiteral(text: string, rest: string)
    requires IsLiteral(text) && Delimits(rest)
    ensures ReadValue(text + rest) == Read(Raw(text), rest)
  {
    LiteralChars(text);
    hide IsLiteral, IsNumber, IsUnsigned, LiteralEnd, ReadElems, ReadString;
    LiteralEnds(text, rest);
    var s := text + rest;
    SkipNothing(s);
    assert s[..|text|] == text && s[|text|..] == rest;
  }

  lemma ReadsText(t: string, rest: string)
    requires PlainString(t)
    ensures ReadValue(Quoted(t) + rest) == Read(Text(t), rest)
  {
    var s := Quoted(t) + rest;
    SkipNothing(s);
    assert s[1..] == t + "\"" + rest;
    ReadsString(t, rest);
  }

  /** The text behind an element begins with a character that ends a literal. */
  lemma TailDelimits(es: Elems, pretty: bool, level: nat, n: Node, tail: string)
    requires Delimits(tail)
    ensures Delimits(PrintElems(es, pretty, level, false) + tail)
  {
  }

  lemma ValueHead(v: Value, pretty: bool, level: nat)
    requires PlainValue(v)
    ensures var s := PrintValue(v, pretty, level);
      s != "" && !IsSpace(s[0]) && s[0] != ']' && s[0] != '}' && s[0] != ','
  {
    if v.Raw? { LiteralChars(v.text); }
  }

  lemma {:induction false} SkipTwice(s: string)
    ensures SkipSpace(SkipSpace(s)) == SkipSpace(s)
  {
    if s != "" && IsSpace(s[0]) { SkipTwice(s[1..]); }
  }

  // The steps of the reader, on texts that are already split.

  lemma ReadLabelMember(x: string, k: string, t: string)
    requires PlainString(k) && SkipSpace(x) == "\"" + (k + "\"" + (":" + t))
    ensures ReadLabel(ObjectNode, x) == Read(Some(k), t)
  {
    ReadsString(k, ":" + t);
    assert (":" + t)[1..] == t;
    SkipNothing(":" + t);
  }

  lemma ReadValueSkips(x: string)
    ensures ReadValue(SkipSpace(x)) == ReadValue(x)
  {
    SkipTwice(x);
  }

  lemma ReadElemsEnd(n: Node, s: string, rest: string, first: bool)
    requires SkipSpace(s) == [Closer(n)] + rest
    ensures ReadElems(n, s, first) == Read(Nil, rest)
  {
  }

  lemma ReadElemsStep(n: Node, s: string, first: bool, k: Option<string>, t: string, v: Value, u: string, es: Elems,
          rest: string)
    requires SkipSpace(s) != "" && SkipSpace(s)[0] != Closer(n) && (first || SkipSpace(s)[0] == ',')
    requires ReadLabel(n, if first then SkipSpace(s) else SkipSpace(s)[1..]) == Read(k, t)
    requires ReadValue(t) == Read(v, u) && ReadElems(n, u, false) == Read(es, rest)
    ensures ReadElems(n, s, first) == Read(Cons(k, v, es), rest)
  {
    hide ReadValue, ReadLabel;
  }

  lemma ReadValueContainer(n: Node, s: string, es: Elems, rest: string)
    requires ReadElems(n, s, true) == Read(es, rest)
    ensures ReadValue([Opener(n)] + s) == Read(Container(n, es), rest)
  {
    hide ReadElems;
    SkipNothing([Opener(n)] + s);
    assert ([Opener(n)] + s)[1..] == s;
  }

  // The printed forms, split the same way.

  lemma ElemsText(k: Option<string>, v: Value, more: Elems, pretty: bool, level: nat, first: bool, end: string)
    ensures PrintElems(Cons(k, v, more), pretty, level, first) + end ==
      (if first then "" else ",") +
      (NewLine(pretty, level) + (Label(k, pretty) +
          (PrintValue(v, pretty, level) + (PrintElems(more, pretty, level, false) + end))))
  {
    var a, b, c, d, e := if first then "" else ",", NewLine(pretty, level), Label(k, pretty),
      PrintValue(v, pretty, level), PrintElems(more, pretty, level, false);
    assert PrintElems(Cons(k, v, more), pretty, level, first) == a + b + c + d + e;
    hide PrintElems, PrintValue, NewLine, Label;
    Assoc(a + b + c + d, e, end);
    Assoc(a + b + c, d, e + end);
    Assoc(a + b, c, d + (e + end));
    Assoc(a, b, c + (d + (e + end)));
  }

  lemma ContainerText(n: Node, es: Elems, pretty: bool, level: nat, rest: string)
    ensures PrintValue(Container(n, es), pretty, level) + rest ==
      [Opener(n)] + (PrintElems(es, pretty, level + 1, true) +
          ((if es.Nil? then "" else NewLine(pretty, level)) + ([Closer(n)] + rest)))
  {
    var a, b := [Opener(n)], PrintElems(es, pretty, level + 1, true);
    var c, d := if es.Nil? then "" else NewLine(pretty, level), [Closer(n)];
    assert PrintValue(Container(n, es), pretty, level) == a + b + c + d;
    hide PrintElems, PrintValue, NewLine, Opener, Closer;
    Assoc(a + b + c, d, rest);
    Assoc(a + b, c, d + rest);
    Assoc(a, b, c + (d + rest));
  }

  lemma LabelText(k: string, pretty: bool, s: string)
    ensures Label(Some(k), pretty) + s == "\"" + (k + "\"" + (":" + ((if pretty then " " else "") + s)))
  {
    var g := if pretty then " " else "";
    Assoc(Quoted(k) + ":", g, s);
    Assoc(Quoted(k), ":", g + s);
    Assoc("\"" + k, "\"", ":" + (g + s));
    Assoc("\"", k, "\"" + (":" + (g + s)));
  }

  /** Reading a label and a value from a text that begins, white space aside, with both. */
  lemma ReadsLabelled(n: Node, k: Option<string>, v: Value, pretty: bool, body: string, x: string,
          tail: string) returns (t: string)
    requires (k.Some? <==> n == ObjectNode) && (k.Some? ==> PlainString(k.value))
    requires SkipSpace(x) == Label(k, pretty) + body && ReadValue(body) == Read(v, tail)
    ensures ReadLabel(n, x) == Read(k, t) && ReadValue(t) == Read(v, tail)
  {
    hide ReadValue, Unescaped;
    if n == ArrayNode {
      t := x;
      assert Label(k, pretty) + body == body;
      ReadValueSkips(x);
    } else {
      var gap := if pretty then " " else "";
      t := gap + body;
      LabelText(k.value, pretty, body);
      hide ReadLabel;
      ReadLabelMember(x, k.value, t);
      SkipAll(gap, body);
      ReadValueSkips(t);
      ReadValueSkips(body);
    }
  }

  lemma LabelledHead(k: Option<string>, v: Value, pretty: bool, level: nat, tail: string)
    requires PlainValue(v)
    ensures var s := Label(k, pretty) + (PrintValue(v, pretty, level) + tail);
      s != "" && !IsSpace(s[0]) && s[0] != ']' && s[0] != '}' && s[0] != ','
  {
    ValueHead(v, pretty, level);
  }

  lemma ReadsBehindComma(n: Node, k: Option<string>, v: Value, more: Elems, pretty: bool, body: string, x: string,
          tail: string, rest: string)
    requires (k.Some? <==> n == ObjectNode) && (k.Some? ==> PlainString(k.value))
    requires SkipSpace(x) == Label(k, pretty) + body && ReadValue(body) == Read(v, tail)
    requires ReadElems(n, tail, false) == Read(more, rest)
    ensures ReadElems(n, "," + x, false) == Read(Cons(k, v, more), rest)
  {
    SkipNothing("," + x);
    hide ReadValue, ReadElems, ReadLabel, Label, SkipSpace, PlainString;
    assert ("," + x)[1..] == x;
    var t := ReadsLabelled(n, k, v, pretty, body, x, tail);
    ReadElemsStep(n, "," + x, false, k, t, v, tail, more, rest);
  }

  /** One more element. */
  lemma ReadsElement(n: Node, k: Option<string>, v: Value, more: Elems, pretty: bool, level: nat, first: bool,
          end: string, rest: string)
    requires Matches(n, Cons(k, v, more)) && Plain(Cons(k, v, more))
    requires var tail := PrintElems(more, pretty, level, false) + end;
      && ReadValue(PrintValue(v, pretty, level) + tail) == Read(v, tail)
      && ReadElems(n, tail, false) == Read(more, rest)
    ensures ReadElems(n, PrintElems(Cons(k, v, more), pretty, level, first) + end, first) ==
        Read(Cons(k, v, more), rest)
  {
    var tail := PrintElems(more, pretty, level, false) + end;
    var body := PrintValue(v, pretty, level) + tail;
    var s := Label(k, pretty) + body;
    ElemsText(k, v, more, pretty, level, first, end);
    LabelledHead(k, v, pretty, level, tail);
    hide ReadValue, ReadElems, ReadLabel, PrintElems, PrintValue, Label, NewLine, Plain, PlainValue, SkipSpace,
      PlainString;
    SkipNewLine(pretty, level, s);
    SkipNothing(s);
    var x := NewLine(pretty, level) + s;
    if first {
      assert "" + x == x;
      var t := ReadsLabelled(n, k, v, pretty, body, s, tail);
      ReadElemsStep(n, x, true, k, t, v, tail, more, rest);
    } else {
      ReadsBehindComma(n, k, v, more, pretty, body, x, tail, rest);
    }
  }

  /** Reading inverts printing, element by element. */
  lemma {:induction false} ReadsElems(n: Node, es: Elems, pretty: bool, level: nat, first: bool, end: string,
          rest: string)
    requires Matches(n, es) && Plain(es)
    requires Delimits(end) && SkipSpace(end) == [Closer(n)] + rest
    ensures ReadElems(n, PrintElems(es, pretty, level, first) + end, first) == Read(es, rest)
    decreases es, 1
  {
    hide ReadValue, ReadElems, PrintValue;
    match es
    case Nil =>
      assert "" + end == end;
      ReadElemsEnd(n, end, rest, first);
    case Cons(k, v, more) =>
      TailDelimits(more, pretty, level, n, end);
      ReadsValue(v, pretty, level, PrintElems(more, pretty, level, false) + end);
      ReadsElems(n, more, pretty, level, false, end, rest);
      ReadsElement(n, k, v, more, pretty, level, first, end, rest);
  }

  lemma {:induction false} ReadsValue(v: Value, pretty: bool, level: nat, rest: string)
    requires MatchesInside(v) && PlainValue(v) && Delimits(rest)
    ensures ReadValue(PrintValue(v, pretty, level) + rest) == Read(v, rest)
    decreases v, 0
  {
    hide ReadElems, PrintElems, ReadLiteral, IsLiteral;
    match v
    case Raw(text) => ReadsLiteral(text, rest);
    case Text(t) => ReadsText(t, rest);
    case Container(n, es) =>
      var gap := if es.Nil? then "" else NewLine(pretty, level);
      ContainerText(n, es, pretty, level, rest);
      GapThenCloser(n, pretty, level, es.Nil?, rest);
      ReadsElems(n, es, pretty, level + 1, true, gap + ([Closer(n)] + rest), rest);
      ReadValueContainer(n, PrintElems(es, pretty, level + 1, true) + (gap + ([Closer(n)] + rest)), es, rest);
  }

  lemma GapThenCloser(n: Node, pretty: bool, level: nat, none: bool, rest: string)
    ensures var end := (if none then "" else NewLine(pretty, level)) + ([Closer(n)] + rest);
      Delimits(end) && SkipSpace(end) == [Closer(n)] + rest
  {
    SkipNothing([Closer(n)] + rest);
    assert "" + ([Closer(n)] + rest) == [Closer(n)] + rest;
    SkipNewLine(pretty, level, [Closer(n)] + rest);
  }

  /** Round trip: a printed document, compact or pretty, reads back as the document. */
  lemma ParseInvertsPrint(n: Node, es: Elems, pretty: bool)
    requires Matches(n, es) && Plain(es)
    ensures Parse(Print(n, es, pretty)) == Some(Container(n, es))
  {
    hide ReadElems, PrintElems, ReadValue;
    var gap := if pretty then "\n" else "";
    var end := gap + ([Closer(n)] + "");
    SkipNothing([Closer(n)] + "");
    SkipAll(gap, [Closer(n)] + "");
    ReadsElems(n, es, pretty, 0, true, end, "");
    ReadValueContainer(n, PrintElems(es, pretty, 0, true) + end, es, "");
    assert Print(n, es, pretty) == [Opener(n)] + (PrintElems(es, pretty, 0, true) + end);
  }
}
