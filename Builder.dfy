/**
 The MacroBuilder class (MacroBuilder/MacroBuilder.cs): a fluent builder
 over one append-only text buffer. `macro` is the text of the StringBuilder
 `_Macro`, and every appender's contract says the whole new buffer: the old
 text followed by exactly the line the call serializes.
 */
module Builder {
  import opened ScriptText
  import opened FileNames
  import opened Runner

  /** A return, or the one exception an appender raises. */
  datatype Thrown<T> = Returned(value: T) | ArgumentNullException(paramName: string)

  /** What AppendMethodCall writes for one argument is its rendering. */
  lemma ArgumentText(before: string, a: Arg, after: string)
    requires after == match a
                      case Str(s) => before + "\"" + s + "\""
                      case Int(n) => before + IntToDecimal(n)
                      case Null => before
    ensures after == before + Render(a)
  {
    match a
    case Str(s) =>
      assert before + "\"" + s + "\"" == before + Quote(s);
    case Int(n) =>
    case Null =>
      assert before + "" == before;
  }

  /** Appending a quote, `s` and a quote is appending `Quote(s)`. */
  lemma QuoteAppended(before: string, s: string, after: string)
    requires after == before + "\"" + s + "\""
    ensures after == before + Quote(s)
  {
  }

  /** Appending `sep` and then `r` to `start + done` is appending `done + sep + r` to `start`. */
  lemma ConcatStep(start: string, done: string, sep: string, r: string, cur: string, next: string)
    requires cur == start + done
    requires next == cur + sep + r
    ensures next == start + (done + sep + r)
  {
  }

  /** One pass of AppendMethodCall's loop: the separator (after the first
      argument) and then the argument's rendering extend the rendered list. */
  lemma ArgumentStep(start: string, args: seq<Arg>, i: nat, cur: string, next: string)
    requires i < |args|
    requires cur == start + Join(Rendered(args[..i]), ", ")
    requires next == (if i > 0 then cur + ", " else cur) + Render(args[i])
    ensures next == start + Join(Rendered(args[..i + 1]), ", ")
  {
    RenderedStep(args, i);
    var done := Join(Rendered(args[..i]), ", ");
    if i > 0 {
      ConcatStep(start, done, ", ", Render(args[i]), cur, next);
    } else {
      assert cur + "" == cur;
      ConcatStep(start, done, "", Render(args[i]), cur, next);
    }
  }

  /** One pass of FileSelection's loop. */
  lemma FileItemStep(start: string, items: seq<NString>, i: nat, cur: string, sep: string, next: string)
    requires i < |items|
    requires cur == start + Join(QuotedAll(items[..i]), ", ")
    requires sep == if i > 0 then cur + ", " else cur
    requires next == sep + "\"" + Text(items[i]) + "\""
    ensures next == start + Join(QuotedAll(items[..i + 1]), ", ")
  {
    var q := Quote(Text(items[i]));
    QuoteAppended(sep, Text(items[i]), next);
    assert QuotedAll(items[..i + 1]) == QuotedAll(items[..i]) + [q];
    JoinSnoc(QuotedAll(items[..i]), q, ", ");
    var done := Join(QuotedAll(items[..i]), ", ");
    if i > 0 {
      ConcatStep(start, done, ", ", q, cur, next);
    } else {
      assert cur + "" == cur;
      ConcatStep(start, done, "", q, cur, next);
      assert done + "" + q == q;
    }
  }

  /** One pass of ListSelect's loop. */
  lemma ListItemStep(start: string, items: seq<NString>, i: nat, cur: string, next: string)
    requires i < |items|
    requires cur == start + Trail(QuotedAll(items[..i]), ", ")
    requires next == cur + ", " + "\"" + Text(items[i]) + "\""
    ensures next == start + Trail(QuotedAll(items[..i + 1]), ", ")
  {
    var q := Quote(Text(items[i]));
    assert QuotedAll(items[..i + 1]) == QuotedAll(items[..i]) + [q];
    TrailSnoc(QuotedAll(items[..i]), q, ", ");
    QuoteAppended(cur + ", ", Text(items[i]), next);
    ConcatStep(start, Trail(QuotedAll(items[..i]), ", "), ", ", q, cur, next);
  }

  /** One pass of TableSelect's loop. */
  lemma TableItemStep(start: string, items: seq<Int32>, i: nat, cur: string, next: string)
    requires i < |items|
    requires cur == start + Trail(DecimalAll(items[..i]), ", ")
    requires next == cur + ", " + IntToDecimal(items[i])
    ensures next == start + Trail(DecimalAll(items[..i + 1]), ", ")
  {
    var d := IntToDecimal(items[i]);
    assert DecimalAll(items[..i + 1]) == DecimalAll(items[..i]) + [d];
    TrailSnoc(DecimalAll(items[..i]), d, ", ");
    ConcatStep(start, Trail(DecimalAll(items[..i]), ", "), ", ", d, cur, next);
  }

  /** Closing a dialog-and-field line that was built after `prefix`. */
  lemma CloseLine(prefix: string, start: string, dialog: string, field: string, rest: string, body: string)
    requires body == prefix + start + dialog + ", " + field + rest
    ensures body + ");" + NL == prefix + (start + dialog + ", " + field + rest + ");" + NL)
  {
  }

  /** The line ListSelect has built once its loop is done. */
  lemma ListSelectClose(prefix: string, dialog: NString, field: NString, items: seq<NString>, body: string)
    requires body == prefix + "akit.ListSelect(" + Quote(Text(dialog)) + ", " + Quote(Text(field))
                    + Trail(QuotedAll(items), ", ")
    ensures body + ");" + NL == prefix + ListSelectLine(dialog, field, items)
  {
    CloseLine(prefix, "akit.ListSelect(", Quote(Text(dialog)), Quote(Text(field)), Trail(QuotedAll(items), ", "), body);
  }

  /** The line TableSelect has built once its loop is done. */
  lemma TableSelectClose(prefix: string, dialog: NString, field: NString, items: seq<Int32>, body: string)
    requires body == prefix + "akit.TableSelect(" + Quote(Text(dialog)) + ", " + Quote(Text(field))
                    + Trail(DecimalAll(items), ", ")
    ensures body + ");" + NL == prefix + TableSelectLine(dialog, field, items)
  {
    CloseLine(prefix, "akit.TableSelect(", Quote(Text(dialog)), Quote(Text(field)), Trail(DecimalAll(items), ", "), body);
  }

  class MacroBuilder {
    var macro: string

    constructor ()
      ensures ToString() == ""
    {
      macro := "";
    }

    /** `new MacroBuilder(script)`; a null script gives an empty buffer,
        as `new StringBuilder(null)` does. */
    constructor FromScript(script: NString)
      ensures ToString() == Text(script)
    {
      macro := Text(script);
    }

    /** The text built so far. */
    function ToString(): string
      reads this
    {
      macro
    }

    /** AppendMethodCall(name, args): `akit.<name>(`, the arguments separated
        by `", "` (a string quoted, an integer in decimal, a null as nothing),
        then `);` and the line terminator. */
    method AppendMethodCall(name: string, args: seq<Arg>) returns (self: MacroBuilder)
      modifies this
      ensures macro == old(macro) + Line(name, args) && self == this
    {
      var start := macro + "akit." + name + "(";
      macro := start;
      var i := 0;
      while i < |args|
        invariant 0 <= i <= |args|
        invariant macro == start + Join(Rendered(args[..i]), ", ")
      {
        ghost var cur := macro;
        if i > 0 {
          macro := macro + ", ";
        }
        ghost var sep := macro;
        match args[i] {
          case Str(s) => macro := macro + "\"" + s + "\"";
          case Int(n) => macro := macro + IntToDecimal(n);
          case Null =>
        }
        ArgumentText(sep, args[i], macro);
        ArgumentStep(start, args, i, cur, macro);
        i := i + 1;
      }
      assert args[..|args|] == args;
      macro := macro + ");" + NL;
      LineAfter(old(macro), name, args);
      self := this;
    }

    method Activate(dialog: NString, field: NString) returns (self: MacroBuilder)
      modifies this
      ensures macro == old(macro) + Line("Activate", [ToArg(dialog), ToArg(field)]) && self == this
    {
      self := AppendMethodCall("Activate", [ToArg(dialog), ToArg(field)]);
    }

    /** Callback(callback): a null name throws before anything is appended;
        otherwise the parameter defaults to "" and the frame to "main_frame". */
    method Callback(callback: NString) returns (r: Thrown<MacroBuilder>)
      modifies this
      ensures callback.None? ==> r == ArgumentNullException("callback") && unchanged(this)
      ensures callback.Some? ==>
        r == Returned(this) && macro == old(macro) + Line("Callback", [Str(callback.value), Str(""), Str("main_frame")])
    {
      if callback.None? {
        return ArgumentNullException("callback");
      }
      var self := CallbackWithParameter(callback, Some(""));
      r := Returned(self);
    }

    /** Callback(callback, parameter): the frame defaults to "main_frame". */
    method CallbackWithParameter(callback: NString, parameter: NString) returns (self: MacroBuilder)
      modifies this
      ensures macro == old(macro) + Line("Callback", [ToArg(callback), ToArg(parameter), Str("main_frame")]) && self == this
    {
      self := CallbackInFrame(callback, parameter, Some("main_frame"));
    }

    /** Callback(callback, parameter, frame). */
    method CallbackInFrame(callback: NString, parameter: NString, frame: NString) returns (self: MacroBuilder)
      modifies this
      ensures macro == old(macro) + Line("Callback", [ToArg(callback), ToArg(parameter), ToArg(frame)]) && self == this
    {
      self := AppendMethodCall("Callback", [ToArg(callback), ToArg(parameter), ToArg(frame)]);
    }

    method CheckValue(name: NString, value: Int32) returns (self: MacroBuilder)
      modifies this
      ensures macro == old(macro) + Line("CheckValue", [ToArg(name), Int(value)]) && self == this
    {
      self := AppendMethodCall("CheckValue", [ToArg(name), Int(value)]);
    }

    method CommandStart(command: NString, parameter: NString, frame: NString) returns (self: MacroBuilder)
      modifies this
      ensures macro == old(macro) + Line("CommandStart", [ToArg(command), ToArg(parameter), ToArg(frame)]) && self == this
    {
      self := AppendMethodCall("CommandStart", [ToArg(command), ToArg(parameter), ToArg(frame)]);
    }

    method CommandEnd() returns (self: MacroBuilder)
      modifies this
      ensures macro == old(macro) + Line("CommandEnd", []) && self == this
    {
      self := AppendMethodCall("CommandEnd", []);
    }

    /** FileSelection(items): every item quoted, `", "` only between items. */
    method FileSelection(items: seq<NString>) returns (self: MacroBuilder)
      modifies this
      ensures macro == old(macro) + FileSelectionLine(items) && self == this
    {
      var start := macro + "akit.FileSelection(";
      macro := start;
      var i := 0;
      while i < |items|
        invariant 0 <= i <= |items|
        invariant macro == start + Join(QuotedAll(items[..i]), ", ")
      {
        ghost var cur := macro;
        if i > 0 {
          macro := macro + ", ";
        }
        ghost var sep := macro;
        macro := macro + "\"" + Text(items[i]) + "\"";
        FileItemStep(start, items, i, cur, sep, macro);
        i := i + 1;
      }
      assert items[..|items|] == items;
      macro := macro + ");" + NL;
      self := this;
    }

    /** ListSelect(dialog, field, items): quoted dialog and field, then
        `", "` and the quoted item for every item. */
    method ListSelect(dialog: NString, field: NString, items: seq<NString>) returns (self: MacroBuilder)
      modifies this
      ensures macro == old(macro) + ListSelectLine(dialog, field, items) && self == this
    {
      var start := macro + "akit.ListSelect(" + Quote(Text(dialog)) + ", " + Quote(Text(field));
      macro := start;
      var i := 0;
      while i < |items|
        invariant 0 <= i <= |items|
        invariant macro == start + Trail(QuotedAll(items[..i]), ", ")
      {
        ghost var cur := macro;
        macro := macro + ", " + "\"" + Text(items[i]) + "\"";
        ListItemStep(start, items, i, cur, macro);
        i := i + 1;
      }
      assert items[..|items|] == items;
      ListSelectClose(old(macro), dialog, field, items, macro);
      macro := macro + ");" + NL;
      self := this;
    }

    method ModalDialog(value: Int32) returns (self: MacroBuilder)
      modifies this
      ensures macro == old(macro) + Line("ModalDialog", [Int(value)]) && self == this
    {
      self := AppendMethodCall("ModalDialog", [Int(value)]);
    }

    method MouseDown(frame: NString, subframe: NString, x: Int32, y: Int32, modifier: Int32) returns (self: MacroBuilder)
      modifies this
      ensures macro == old(macro) + Line("MouseDown", [ToArg(frame), ToArg(subframe), Int(x), Int(y), Int(modifier)]) && self == this
    {
      self := AppendMethodCall("MouseDown", [ToArg(frame), ToArg(subframe), Int(x), Int(y), Int(modifier)]);
    }

    method MouseUp(frame: NString, subframe: NString, x: Int32, y: Int32, modifier: Int32) returns (self: MacroBuilder)
      modifies this
      ensures macro == old(macro) + Line("MouseUp", [ToArg(frame), ToArg(subframe), Int(x), Int(y), Int(modifier)]) && self == this
    {
      self := AppendMethodCall("MouseUp", [ToArg(frame), ToArg(subframe), Int(x), Int(y), Int(modifier)]);
    }

    method PushButton(button: NString, frame: NString) returns (self: MacroBuilder)
      modifies this
      ensures macro == old(macro) + Line("PushButton", [ToArg(button), ToArg(frame)]) && self == this
    {
      self := AppendMethodCall("PushButton", [ToArg(button), ToArg(frame)]);
    }

    method TabChange(dialog: NString, field: NString, item: NString) returns (self: MacroBuilder)
      modifies this
      ensures macro == old(macro) + Line("TabChange", [ToArg(dialog), ToArg(field), ToArg(item)]) && self == this
    {
      self := AppendMethodCall("TabChange", [ToArg(dialog), ToArg(field), ToArg(item)]);
    }

    /** TableSelect(dialog, field, items): quoted dialog and field, then
        `", "` and the bare decimal item for every item. */
    method TableSelect(dialog: NString, field: NString, items: seq<Int32>) returns (self: MacroBuilder)
      modifies this
      ensures macro == old(macro) + TableSelectLine(dialog, field, items) && self == this
    {
      var start := macro + "akit.TableSelect(" + Quote(Text(dialog)) + ", " + Quote(Text(field));
      macro := start;
      var i := 0;
      while i < |items|
        invariant 0 <= i <= |items|
        invariant macro == start + Trail(DecimalAll(items[..i]), ", ")
      {
        ghost var cur := macro;
        macro := macro + ", " + IntToDecimal(items[i]);
        TableItemStep(start, items, i, cur, macro);
        i := i + 1;
      }
      assert items[..|items|] == items;
      TableSelectClose(old(macro), dialog, field, items, macro);
      macro := macro + ");" + NL;
      self := this;
    }

    method TreeSelect(dialog: NString, field: NString, rowstring: NString) returns (self: MacroBuilder)
      modifies this
      ensures macro == old(macro) + Line("TreeSelect", [ToArg(dialog), ToArg(field), ToArg(rowstring)]) && self == this
    {
      self := AppendMethodCall("TreeSelect", [ToArg(dialog), ToArg(field), ToArg(rowstring)]);
    }

    method ValueChange(dialog: NString, field: NString, data: NString) returns (self: MacroBuilder)
      modifies this
      ensures macro == old(macro) + Line("ValueChange", [ToArg(dialog), ToArg(field), ToArg(data)]) && self == this
    {
      self := AppendMethodCall("ValueChange", [ToArg(dialog), ToArg(field), ToArg(data)]);
    }

    /** Run: take the next slot name, write the enveloped buffer under it,
        run it through RunMacro("..\" + name) and delete the script and its
        byproducts. `seed` is the random draw GetMacroFileName would make;
        `drawingActive` and `connected` are the host's answers. The buffer is
        left as it was. */
    method Run(rotator: FileNameRotator, seed: int, drawingActive: bool, connected: bool)
      returns (calls: seq<HostCall>)
      requires rotator.Valid() && 0 <= seed < MaxTempFiles
      modifies rotator
      ensures rotator.Valid() && rotator.index == NextIndex(old(rotator.index), seed)
      ensures calls == RunCalls(FileName(rotator.index), macro, drawingActive, connected)
    {
      var name := rotator.GetMacroFileName(seed);
      var script := EnvelopeHead + macro + "}" + "}" + "}";
      assert script == Envelope(macro);
      calls := [WriteAllText(name, script)];
      var path := MacroPath("..\\" + name, drawingActive, connected);
      if path.Some? {
        calls := calls + [Execute(path.value)];
      }
      var nameDll := name[..|name| - 2] + "dll";
      var namePdb := name[..|name| - 2] + "pdb";
      calls := calls + [Delete(name), Delete(nameDll), Delete(namePdb)];
    }
  }

  lemma JoinThree(a: string, b: string, c: string, sep: string)
    ensures Join([a, b, c], sep) == a + sep + b + sep + c
  {
    assert [a, b, c][1..] == [b, c];
    assert [b, c][1..] == [c];
    assert Join([c], sep) == c;
    assert Join([b, c], sep) == b + sep + c;
  }

  lemma ThreeStringLine(name: string, a: string, b: string, c: string)
    ensures Line(name, [Str(a), Str(b), Str(c)])
         == "akit." + name + "(" + (Quote(a) + ", " + Quote(b) + ", " + Quote(c)) + ");" + NL
  {
    assert Rendered([Str(a), Str(b), Str(c)]) == [Quote(a), Quote(b), Quote(c)];
    JoinThree(Quote(a), Quote(b), Quote(c), ", ");
  }

  /** A recorded field change, as the script line it becomes. */
  lemma ValueChangeLineExample()
    ensures Line("ValueChange", [ToArg(Some("d")), ToArg(Some("f")), ToArg(Some("x"))])
         == "akit.ValueChange(" + "\"d\", \"f\", \"x\"" + ");" + NL
  {
    ThreeStringLine("ValueChange", "d", "f", "x");
    assert Quote("d") + ", " + Quote("f") + ", " + Quote("x") == "\"d\", \"f\", \"x\"";
  }

  lemma TrailThree(a: string, b: string, c: string, sep: string)
    ensures Trail([a, b, c], sep) == sep + a + sep + b + sep + c
  {
    assert [a, b, c][1..] == [b, c];
    assert [b, c][1..] == [c];
    assert Trail([c], sep) == sep + c;
    assert Trail([b, c], sep) == sep + b + (sep + c);
  }

  lemma ThreeIntTableLine(dialog: string, field: string, a: Int32, b: Int32, c: Int32)
    ensures TableSelectLine(Some(dialog), Some(field), [a, b, c])
         == "akit.TableSelect(" + Quote(dialog) + ", " + Quote(field)
            + (", " + IntToDecimal(a) + ", " + IntToDecimal(b) + ", " + IntToDecimal(c)) + ");" + NL
  {
    assert DecimalAll([a, b, c]) == [IntToDecimal(a), IntToDecimal(b), IntToDecimal(c)];
    TrailThree(IntToDecimal(a), IntToDecimal(b), IntToDecimal(c), ", ");
  }

  lemma SmallDecimals()
    ensures IntToDecimal(1) == "1" && IntToDecimal(2) == "2" && IntToDecimal(3) == "3"
  {
    assert DigitChar(1) == '1' && DigitChar(2) == '2' && DigitChar(3) == '3';
  }

  /** Replaces the two quoted fields and the tail of a selection line by equal strings. */
  lemma SelectionPieces(line: string, prefix: string, a: string, b: string, tail: string, suffix: string,
                        fields: string, tail': string)
    requires line == prefix + a + ", " + b + tail + suffix
    requires a + ", " + b == fields && tail == tail'
    ensures line == prefix + fields + tail' + suffix
  {
  }

  /** A recorded table selection: the row numbers are written bare. */
  lemma TableSelectLineExample()
    ensures TableSelectLine(Some("d"), Some("f"), [1, 2, 3])
         == "akit.TableSelect(" + "\"d\", \"f\"" + ", 1, 2, 3" + ");" + NL
  {
    ThreeIntTableLine("d", "f", 1, 2, 3);
    SmallDecimals();
    var tail := ", " + IntToDecimal(1) + ", " + IntToDecimal(2) + ", " + IntToDecimal(3);
    assert Quote("d") + ", " + Quote("f") == "\"d\", \"f\"";
    assert tail == ", 1, 2, 3";
    SelectionPieces(TableSelectLine(Some("d"), Some("f"), [1, 2, 3]), "akit.TableSelect(",
                    Quote("d"), Quote("f"), tail, ");" + NL, "\"d\", \"f\"", ", 1, 2, 3");
  }

}
