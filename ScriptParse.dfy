/**
 A reader for the generic call lines of the script grammar. It is the
 partner of ScriptText.Line: as long as no string argument contains a
 double quote (nothing is escaped) and the method name has no '(' in it,
 a rendered line can be read back into the call that produced it. The one
 ambiguity of the grammar is also stated: a single null argument and no
 argument at all render the same.
 */
module ScriptParse {
  import opened ScriptText

  /** A call `akit.<name>(<args>);` as read back from one line. */
  datatype Call = Call(name: string, args: seq<Arg>)

  /** The first position of `c` in `s`, or |s| when there is none. */
  function IndexOf(s: string, c: char): (k: nat)
    ensures k <= |s|
    ensures forall j :: 0 <= j < k ==> s[j] != c
    ensures k < |s| ==> s[k] == c
    decreases |s|
  {
    if |s| == 0 then 0 else if s[0] == c then 0 else 1 + IndexOf(s[1..], c)
  }

  lemma IndexOfAt(a: string, b: string, c: char)
    requires forall j :: 0 <= j < |a| ==> a[j] != c
    requires |b| == 0 || b[0] == c
    ensures IndexOf(a + b, c) == |a|
  {
    assert forall j :: 0 <= j < |a| ==> (a + b)[j] != c;
    if |b| > 0 {
      assert (a + b)[|a|] == c;
    }
  }

  /** The length of the argument token at the start of `s`: a quoted string
      runs to its closing quote, anything else to the next comma. */
  function TokenEnd(s: string): (k: nat)
    ensures k <= |s|
  {
    if |s| > 0 && s[0] == '"' then
      var close := 1 + IndexOf(s[1..], '"');
      if close < |s| then close + 1 else |s|
    else IndexOf(s, ',')
  }

  /** The argument one token stands for. */
  function ParseToken(t: string): Option<Arg> {
    if |t| == 0 then Some(Null)
    else if t[0] == '"' then
      if |t| >= 2 && t[|t| - 1] == '"' then Some(Str(t[1..|t| - 1])) else None
    else
      match ParseDecimal(t)
      case Some(n) => if -0x8000_0000 <= n < 0x8000_0000 then Some(Int(n)) else None
      case None => None
  }

  /** A non-empty list of tokens separated by `", "`. */
  function ParseArgList(s: string): Option<seq<Arg>>
    decreases |s|
  {
    var k := TokenEnd(s);
    match ParseToken(s[..k])
    case None => None
    case Some(a) =>
      if k == |s| then Some([a])
      else if k + 2 <= |s| && s[k..k + 2] == ", " then
        match ParseArgList(s[k + 2..])
        case None => None
        case Some(rest) => Some([a] + rest)
      else None
  }

  /** The text between the parentheses of a call; empty text is no argument. */
  function ParseArgs(s: string): Option<seq<Arg>> {
    if |s| == 0 then Some([]) else ParseArgList(s)
  }

  /** Reads one generic call line back. */
  function ParseLine(line: string): Option<Call> {
    var tail := ");" + NL;
    if |line| < 6 + |tail| || line[..5] != "akit." || line[|line| - |tail|..] != tail then None
    else
      var inner := line[5..|line| - |tail|];
      var p := IndexOf(inner, '(');
      if p == |inner| then None
      else
        match ParseArgs(inner[p + 1..])
        case None => None
        case Some(args) => Some(Call(inner[..p], args))
  }

  /** An argument the unescaped grammar can carry: no quote inside a string. */
  predicate Readable(a: Arg) {
    a.Str? ==> forall j :: 0 <= j < |a.s| ==> a.s[j] != '"'
  }

  /** A rendered argument is one token, whatever separator follows it. */
  lemma {:induction false} TokenRoundTrip(a: Arg, rest: string)
    requires Readable(a)
    requires |rest| == 0 || rest[0] == ','
    ensures TokenEnd(Render(a) + rest) == |Render(a)|
    ensures ParseToken(Render(a)) == Some(a)
  {
    var r := Render(a);
    var s := r + rest;
    match a
    case Str(x) =>
      assert s[1..] == x + ("\"" + rest);
      IndexOfAt(x, "\"" + rest, '"');
      assert r[1..|r| - 1] == x;
    case Int(n) =>
      IndexOfAt(r, rest, ',');
      DecimalRoundTrip(n);
    case Null =>
      assert s == rest;
  }

  lemma ParseArgListLast(s: string, a: Arg)
    requires TokenEnd(s) == |s| && ParseToken(s) == Some(a)
    ensures ParseArgList(s) == Some([a])
  {
    assert s[..|s|] == s;
  }

  lemma ParseArgListStep(s: string, k: nat, a: Arg, rest: seq<Arg>)
    requires TokenEnd(s) == k && k + 2 <= |s|
    requires ParseToken(s[..k]) == Some(a) && s[k..k + 2] == ", "
    requires ParseArgList(s[k + 2..]) == Some(rest)
    ensures ParseArgList(s) == Some([a] + rest)
  {
  }

  lemma JoinUnfold(parts: seq<string>, sep: string)
    requires |parts| >= 2
    ensures Join(parts, sep) == parts[0] + (sep + Join(parts[1..], sep))
  {
  }

  lemma ArgListOne(a: Arg)
    requires Readable(a)
    ensures ParseArgList(Join(Rendered([a]), ", ")) == Some([a])
  {
    var first := Render(a);
    assert Join(Rendered([a]), ", ") == first;
    assert first + "" == first;
    TokenRoundTrip(a, "");
    ParseArgListLast(first, a);
  }

  lemma JoinCons(a: Arg, tail: seq<Arg>)
    requires |tail| >= 1
    ensures Join(Rendered([a] + tail), ", ") == Render(a) + (", " + Join(Rendered(tail), ", "))
  {
    var parts := Rendered([a] + tail);
    assert parts[1..] == Rendered(tail);
    JoinUnfold(parts, ", ");
  }

  lemma SplitToken(first: string, more: string)
    ensures (first + (", " + more))[..|first|] == first
    ensures (first + (", " + more))[|first|..|first| + 2] == ", "
    ensures (first + (", " + more))[|first| + 2..] == more
  {
  }

  lemma ArgListCons(a: Arg, tail: seq<Arg>)
    requires |tail| >= 1 && Readable(a)
    requires ParseArgList(Join(Rendered(tail), ", ")) == Some(tail)
    ensures ParseArgList(Join(Rendered([a] + tail), ", ")) == Some([a] + tail)
  {
    var first := Render(a);
    var more := Join(Rendered(tail), ", ");
    var s := first + (", " + more);
    JoinCons(a, tail);
    TokenRoundTrip(a, ", " + more);
    SplitToken(first, more);
    ParseArgListStep(s, |first|, a, tail);
  }

  /** A non-empty list of readable arguments reads back from its rendering. */
  lemma {:induction false} ArgListRoundTrip(args: seq<Arg>)
    requires |args| >= 1
    requires forall i :: 0 <= i < |args| ==> Readable(args[i])
    ensures ParseArgList(Join(Rendered(args), ", ")) == Some(args)
    decreases |args|
  {
    if |args| == 1 {
      assert args == [args[0]];
      ArgListOne(args[0]);
    } else {
      ArgListRoundTrip(args[1..]);
      ArgListCons(args[0], args[1..]);
      assert [args[0]] + args[1..] == args;
    }
  }

  /** Only a single null argument renders to nothing. */
  lemma JoinEmpty(args: seq<Arg>)
    requires |args| >= 1
    requires Join(Rendered(args), ", ") == ""
    ensures args == [Null]
  {
    if |args| == 1 {
      RenderQuoting(args[0]);
    }
  }

  /** The grammar's one ambiguity: `akit.M(null)` and `akit.M()` are the same text. */
  lemma NullAloneIsNoArgument(name: string)
    ensures Line(name, [Null]) == Line(name, [])
  {
    assert Rendered([Null]) == [""];
  }

  lemma SplitThree(x: string, y: string, z: string)
    ensures (x + y + z)[..|x|] == x
    ensures (x + y + z)[|x| + |y|..] == z
    ensures (x + y + z)[|x|..|x| + |y|] == y
  {
  }

  /** The frame of a call line is read off around whatever lies between the parentheses. */
  lemma ParseLineFrame(name: string, body: string)
    requires forall j :: 0 <= j < |name| ==> name[j] != '('
    ensures ParseLine("akit." + name + "(" + body + ");" + NL)
         == match ParseArgs(body)
            case None => None
            case Some(args) => Some(Call(name, args))
  {
    var head, tail := "akit.", ");" + NL;
    var inner := name + "(" + body;
    var line := "akit." + name + "(" + body + ");" + NL;
    assert line == head + inner + tail;
    SplitThree(head, inner, tail);
    assert |line| == 5 + |inner| + |tail|;
    assert line[..5] == head;
    assert line[|line| - |tail|..] == tail;
    assert line[5..|line| - |tail|] == inner;
    IndexOfAt(name, "(" + body, '(');
    assert inner == name + ("(" + body);
    assert IndexOf(inner, '(') == |name|;
    assert inner[..|name|] == name;
    assert inner[|name| + 1..] == body;
  }

  /** Decoding a rendered line gives back the method name and the arguments. */
  lemma LineRoundTrip(name: string, args: seq<Arg>)
    requires forall j :: 0 <= j < |name| ==> name[j] != '('
    requires forall i :: 0 <= i < |args| ==> Readable(args[i])
    requires args != [Null]
    ensures ParseLine(Line(name, args)) == Some(Call(name, args))
  {
    var body := Join(Rendered(args), ", ");
    ParseLineFrame(name, body);
    if |args| == 0 {
      assert body == "";
    } else {
      if body == "" {
        JoinEmpty(args);
      }
      ArgListRoundTrip(args);
    }
  }

  /** Nothing inside a string is escaped, so a string holding `", "` writes
      the same line as the two strings on either side of it. */
  lemma QuoteInsideStringCollides(name: string, x: string, y: string)
    ensures Line(name, [Str(x + "\", \"" + y)]) == Line(name, [Str(x), Str(y)])
  {
    assert Rendered([Str(x + "\", \"" + y)]) == [Quote(x + "\", \"" + y)];
    assert Rendered([Str(x), Str(y)]) == [Quote(x), Quote(y)];
    assert Join([Quote(x), Quote(y)], ", ") == Quote(x) + ", " + Quote(y);
  }
}
