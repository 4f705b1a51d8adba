/**
 The textual grammar of the generated macro script: how one argument is
 rendered, how a generic `akit.<Method>(...)` call line is formed, and the
 custom lines of FileSelection, ListSelect and TableSelect
 (MacroBuilder/MacroBuilder.cs).
 */
module ScriptText {

  datatype Option<+T> = None | Some(value: T)

  /** A C# `string` reference, which may be null. */
  type NString = Option<string>

  /** The range of a C# `int`. */
  type Int32 = n: int | -0x8000_0000 <= n < 0x8000_0000

  /** One element of AppendMethodCall's `object[] arguments`: a string,
      a boxed int, or a null reference (which fails the `is string` test). */
  datatype Arg = Str(s: string) | Int(n: Int32) | Null

  /** The line terminator StringBuilder.AppendLine writes (Environment.NewLine).
      Its value is deliberately left open: nothing below depends on it. */
  const NL: string

  /** What StringBuilder.Append(string) and AppendFormat add for a possibly
      null string: a null reference adds nothing. */
  function Text(x: NString): string {
    match x
    case Some(s) => s
    case None => ""
  }

  /** How a string parameter of an appender reaches AppendMethodCall. */
  function ToArg(x: NString): Arg {
    match x
    case Some(s) => Str(s)
    case None => Null
  }

  /** A string wrapped in double quotes; nothing inside is escaped. */
  function Quote(s: string): string {
    "\"" + s + "\""
  }

  // ---------------------------------------------------------------------
  // Decimal rendering of integers (int.ToString(), invariant culture)
  // ---------------------------------------------------------------------

  predicate IsDigit(c: char) {
    '0' <= c <= '9'
  }

  function DigitChar(d: nat): (c: char)
    requires d < 10
    ensures IsDigit(c)
  {
    ('0' as int + d) as char
  }

  function DigitValue(c: char): (d: nat)
    requires IsDigit(c)
    ensures d < 10 && DigitChar(d) == c
  {
    c as int - '0' as int
  }

  /** The decimal digits of `n`, most significant first, without leading zeros. */
  function NatToDecimal(n: nat): (s: string)
    ensures |s| >= 1
    ensures forall i :: 0 <= i < |s| ==> IsDigit(s[i])
    ensures |s| > 1 ==> s[0] != '0'
    decreases n
  {
    if n < 10 then [DigitChar(n)] else NatToDecimal(n / 10) + [DigitChar(n % 10)]
  }

  /** int.ToString(): a leading '-' for negative numbers, then the digits. */
  function IntToDecimal(n: int): (s: string)
    ensures |s| >= 1
    ensures (s[0] == '-') <==> n < 0
    ensures forall i :: 0 <= i < |s| ==> s[i] != '"' && s[i] != ','
  {
    if n < 0 then "-" + NatToDecimal(-n) else NatToDecimal(n)
  }

  predicate AllDigits(s: string) {
    forall i :: 0 <= i < |s| ==> IsDigit(s[i])
  }

  /** The value of a string of decimal digits. */
  function DigitsValue(s: string): nat
    requires AllDigits(s)
    decreases |s|
  {
    if |s| == 0 then 0 else DigitsValue(s[..|s| - 1]) * 10 + DigitValue(s[|s| - 1])
  }

  /** Reads back what IntToDecimal writes. */
  function ParseDecimal(s: string): Option<int> {
    if |s| >= 2 && s[0] == '-' && AllDigits(s[1..]) then Some(-(DigitsValue(s[1..]) as int))
    else if |s| >= 1 && AllDigits(s) then Some(DigitsValue(s))
    else None
  }

  lemma {:induction false} NatDecimalRoundTrip(n: nat)
    ensures DigitsValue(NatToDecimal(n)) == n
    decreases n
  {
    if n >= 10 {
      var s := NatToDecimal(n);
      var t := NatToDecimal(n / 10);
      assert s == t + [DigitChar(n % 10)];
      assert s[..|s| - 1] == t;
      NatDecimalRoundTrip(n / 10);
    }
  }

  /** Decimal rendering is lossless: the integer can be read back. */
  lemma DecimalRoundTrip(n: int)
    ensures ParseDecimal(IntToDecimal(n)) == Some(n)
  {
    if n < 0 {
      var d := NatToDecimal(-n);
      assert IntToDecimal(n)[1..] == d;
      NatDecimalRoundTrip(-n);
    } else {
      NatDecimalRoundTrip(n);
    }
  }

  // ---------------------------------------------------------------------
  // Argument rendering and separators
  // ---------------------------------------------------------------------

  /** What AppendMethodCall writes for one argument: a string quoted,
      an int in decimal, a null reference as nothing at all. */
  function Render(a: Arg): string {
    match a
    case Str(s) => Quote(s)
    case Int(n) => IntToDecimal(n)
    case Null => ""
  }

  /** Quoting discipline: a rendered argument is delimited by quotes exactly
      when it is a string; an int never has a quote in it; null is empty. */
  lemma RenderQuoting(a: Arg)
    ensures var r := Render(a);
      (|r| >= 2 && r[0] == '"' && r[|r| - 1] == '"') <==> a.Str?
    ensures a.Int? ==> |Render(a)| >= 1 && forall i :: 0 <= i < |Render(a)| ==> Render(a)[i] != '"'
    ensures Render(a) == "" <==> a.Null?
  {
    if a.Int? {
      var r := Render(a);
      assert r[0] != '"';
    }
  }

  function Rendered(args: seq<Arg>): (parts: seq<string>)
    ensures |parts| == |args|
  {
    seq(|args|, i requires 0 <= i < |args| => Render(args[i]))
  }

  lemma RenderedAppend(a: seq<Arg>, b: seq<Arg>)
    ensures Rendered(a + b) == Rendered(a) + Rendered(b)
  {
  }

  lemma RenderedStrArgs(items: seq<NString>)
    ensures Rendered(StrArgs(items)) == QuotedAll(items)
  {
    forall i | 0 <= i < |items|
      ensures Rendered(StrArgs(items))[i] == QuotedAll(items)[i]
    {
    }
  }

  lemma RenderedIntArgs(items: seq<Int32>)
    ensures Rendered(IntArgs(items)) == DecimalAll(items)
  {
    forall i | 0 <= i < |items|
      ensures Rendered(IntArgs(items))[i] == DecimalAll(items)[i]
    {
    }
  }

  /** `parts` with `sep` between consecutive elements (string.Join). */
  function Join(parts: seq<string>, sep: string): string
    decreases |parts|
  {
    if |parts| == 0 then ""
    else if |parts| == 1 then parts[0]
    else parts[0] + sep + Join(parts[1..], sep)
  }

  /** `sep` written before every element of `parts`. */
  function Trail(parts: seq<string>, sep: string): string
    decreases |parts|
  {
    if |parts| == 0 then "" else sep + parts[0] + Trail(parts[1..], sep)
  }

  /** A joined list is its head followed by the others, each after a separator. */
  lemma {:induction false} JoinIsHeadTrail(head: string, rest: seq<string>, sep: string)
    ensures Join([head] + rest, sep) == head + Trail(rest, sep)
    decreases |rest|
  {
    if |rest| == 0 {
      assert [head] + rest == [head];
    } else {
      assert ([head] + rest)[1..] == rest;
      assert rest == [rest[0]] + rest[1..];
      JoinIsHeadTrail(rest[0], rest[1..], sep);
    }
  }

  lemma {:induction false} TrailSnoc(parts: seq<string>, p: string, sep: string)
    ensures Trail(parts + [p], sep) == Trail(parts, sep) + sep + p
    decreases |parts|
  {
    if |parts| == 0 {
      assert parts + [p] == [p];
      assert [p][1..] == [];
    } else {
      assert (parts + [p])[1..] == parts[1..] + [p];
      TrailSnoc(parts[1..], p, sep);
    }
  }

  /** Extending a join by one element adds a separator only if the join was
      not empty: the `if (Index > 0)` of the serialising loops. */
  lemma JoinSnoc(parts: seq<string>, p: string, sep: string)
    ensures Join(parts + [p], sep) == if |parts| == 0 then p else Join(parts, sep) + sep + p
  {
    if |parts| == 0 {
      assert parts + [p] == [p];
    } else {
      var head, rest := parts[0], parts[1..];
      assert parts == [head] + rest;
      assert parts + [p] == [head] + (rest + [p]);
      JoinIsHeadTrail(head, rest + [p], sep);
      TrailSnoc(rest, p, sep);
      JoinIsHeadTrail(head, rest, sep);
    }
  }

  // ---------------------------------------------------------------------
  // Script lines
  // ---------------------------------------------------------------------

  /** The line AppendMethodCall(name, args) appends. */
  function Line(name: string, args: seq<Arg>): string {
    "akit." + name + "(" + Join(Rendered(args), ", ") + ");" + NL
  }

  /** One more argument extends the rendered list by a separator (unless it
      is the first) and the argument's rendering. */
  lemma RenderedStep(args: seq<Arg>, i: nat)
    requires i < |args|
    ensures Join(Rendered(args[..i + 1]), ", ")
         == Join(Rendered(args[..i]), ", ") + (if i > 0 then ", " else "") + Render(args[i])
  {
    assert Rendered(args[..i + 1]) == Rendered(args[..i]) + [Render(args[i])];
    JoinSnoc(Rendered(args[..i]), Render(args[i]), ", ");
  }

  lemma LineAfter(prefix: string, name: string, args: seq<Arg>)
    ensures prefix + "akit." + name + "(" + Join(Rendered(args), ", ") + ");" + NL == prefix + Line(name, args)
  {
  }

  /** Every item as a string argument, a null item as the empty string. */
  function StrArgs(items: seq<NString>): (args: seq<Arg>)
    ensures |args| == |items|
  {
    seq(|items|, i requires 0 <= i < |items| => Str(Text(items[i])))
  }

  function IntArgs(items: seq<Int32>): (args: seq<Arg>)
    ensures |args| == |items|
  {
    seq(|items|, i requires 0 <= i < |items| => Int(items[i]))
  }

  function QuotedAll(items: seq<NString>): (parts: seq<string>)
    ensures |parts| == |items|
  {
    seq(|items|, i requires 0 <= i < |items| => Quote(Text(items[i])))
  }

  function DecimalAll(items: seq<Int32>): (parts: seq<string>)
    ensures |parts| == |items|
  {
    seq(|items|, i requires 0 <= i < |items| => IntToDecimal(items[i]))
  }

  /** The line FileSelection(items) appends: every item quoted, `", "` between items. */
  function FileSelectionLine(items: seq<NString>): string {
    "akit.FileSelection(" + Join(QuotedAll(items), ", ") + ");" + NL
  }

  /** The line ListSelect(dialog, field, items) appends: quoted dialog and field,
      then `", "` and the quoted item for every item. */
  function ListSelectLine(dialog: NString, field: NString, items: seq<NString>): string {
    "akit.ListSelect(" + Quote(Text(dialog)) + ", " + Quote(Text(field))
      + Trail(QuotedAll(items), ", ") + ");" + NL
  }

  /** The line TableSelect(dialog, field, items) appends: quoted dialog and field,
      then `", "` and the bare decimal item for every item. */
  function TableSelectLine(dialog: NString, field: NString, items: seq<Int32>): string {
    "akit.TableSelect(" + Quote(Text(dialog)) + ", " + Quote(Text(field))
      + Trail(DecimalAll(items), ", ") + ");" + NL
  }

  /** FileSelection writes the generic call form, except that a null item
      becomes an empty quoted string rather than an empty argument. */
  lemma FileSelectionIsMethodCall(items: seq<NString>)
    ensures FileSelectionLine(items) == Line("FileSelection", StrArgs(items))
  {
    RenderedStrArgs(items);
  }

  /** The generic rendering of a dialog, a field and further arguments. */
  lemma {:induction false} JoinDialogField(dialog: string, field: string, rest: seq<Arg>)
    ensures Join(Rendered([Str(dialog), Str(field)] + rest), ", ")
         == Quote(dialog) + ", " + Quote(field) + Trail(Rendered(rest), ", ")
  {
    var qd, qf := Quote(dialog), Quote(field);
    var front := [Str(dialog), Str(field)];
    RenderedAppend(front, rest);
    assert Rendered(front) == [qd, qf];
    assert Rendered(front + rest) == [qd] + ([qf] + Rendered(rest));
    JoinIsHeadTrail(qd, [qf] + Rendered(rest), ", ");
    assert ([qf] + Rendered(rest))[1..] == Rendered(rest);
  }

  /** ListSelect writes the generic call form over dialog, field and the items. */
  lemma ListSelectIsMethodCall(dialog: NString, field: NString, items: seq<NString>)
    ensures ListSelectLine(dialog, field, items)
         == Line("ListSelect", [Str(Text(dialog)), Str(Text(field))] + StrArgs(items))
  {
    JoinDialogField(Text(dialog), Text(field), StrArgs(items));
    RenderedStrArgs(items);
  }

  /** TableSelect writes the generic call form over dialog, field and the items. */
  lemma TableSelectIsMethodCall(dialog: NString, field: NString, items: seq<Int32>)
    ensures TableSelectLine(dialog, field, items)
         == Line("TableSelect", [Str(Text(dialog)), Str(Text(field))] + IntArgs(items))
  {
    JoinDialogField(Text(dialog), Text(field), IntArgs(items));
    RenderedIntArgs(items);
  }
}
