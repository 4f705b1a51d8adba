# MacroBuilder for Tekla Structures, modelled in Dafny

MacroBuilder is a small C# library that records Tekla Structures user
interface actions as a macro script. A `MacroBuilder` object holds a text
buffer. Every fluent appender adds one line of the form
`akit.<Method>(<args>);` and hands back the same builder. `Run` wraps the
buffer in a fixed C# class. It writes the result to one of 32 rotating
temporary file names (`macro_00.cs` … `macro_31.cs`), has the host run it
(inside the drawings directory when a drawing is open), and finally deletes
the script and the compiler's `.dll` and `.pdb` byproducts.

The model has five modules:

- `ScriptText` holds what is written into the buffer:
  - arguments: a string, a 32-bit integer or a null reference;
  - their rendering: strings quoted with nothing escaped, integers in
    decimal, null as nothing;
  - the `", "` separator and the line built by each appender;
  - a decimal reader that proves decimal rendering loses nothing.
- `ScriptParse` reads a generic call line back into its method name and
  arguments. This is the round-trip partner of the line grammar.
- `FileNames` holds the slot cursor of `GetMacroFileName` as a class
  `FileNameRotator` whose field is updated in place. It also holds the
  `macro_{0:00}.cs` names and the rotation properties over any sequence
  of calls.
- `Runner` holds the pure parts of `Run` and `RunMacro`:
  - the script envelope and its inverse;
  - the byproduct names;
  - `Path.HasExtension`;
  - the path handed to the host;
  - the ordered list of file-system and host calls one `Run` makes.
- `Builder` holds the class `MacroBuilder`. Its field `macro` is the
  StringBuilder `_Macro`, appended to in place by every appender. The
  three list appenders keep their own loops with invariants. Every
  appender's postcondition gives the whole new buffer: the old text
  followed by the serialized line.

The line terminator is the constant `NL`. It has no value in the model
because `Environment.NewLine` depends on the platform. A random draw, and
the host's answers to "is a drawing active" and "is the model connected",
are parameters.

Two facts about the code shape what the lines look like:

- The one-argument `Callback` rejects only a null name. An empty name is
  passed through, and no other appender checks its arguments.
- A null reference passed to a generic appender is written as nothing
  between the separators: unquoted and empty. A null item of
  `FileSelection` or `ListSelect`, and a null dialog or field of
  `ListSelect`/`TableSelect`, is written as `""` inside its quotes,
  because `Append(null)` and `{0}` of null write nothing.

Nothing inside a string argument is escaped, so a line can be read back
into its call (`ScriptParse.LineRoundTrip`) only within three limits:

- no string argument contains a double quote. A string holding `", "`
  writes the same line as the two strings on either side of it
  (`ScriptParse.QuoteInsideStringCollides`);
- the method name contains no `(`;
- the arguments are not a single null, which writes the same line as no
  argument at all (`ScriptParse.NullAloneIsNoArgument`).

## Model

| member | source | states |
|---|---|---|
| Builder.MacroBuilder.constructor | MacroBuilder/MacroBuilder.cs:36-39 | a new builder's buffer is empty |
| Builder.MacroBuilder.FromScript | MacroBuilder/MacroBuilder.cs:45-48 | a builder made from a script starts with that text, and with the empty text for a null script |
| Builder.MacroBuilder.ToString | MacroBuilder/MacroBuilder.cs:342-345 | the buffer's text; what it holds after each call is stated by the constructors' and appenders' postconditions |
| Builder.MacroBuilder.AppendMethodCall | MacroBuilder/MacroBuilder.cs:353-376 | the buffer becomes the old text followed by exactly `akit.<name>(`, the rendered arguments separated by `", "`, `);` and the line terminator; the builder itself is returned |
| Builder.MacroBuilder.Activate | MacroBuilder/MacroBuilder.cs:58-61 | appends exactly the `Activate` call line over dialog and field |
| Builder.MacroBuilder.Callback | MacroBuilder/MacroBuilder.cs:68-72 | a null callback name raises ArgumentNullException("callback") and leaves the buffer unchanged; otherwise appends the `Callback` line with parameter `""` and frame `"main_frame"` |
| Builder.MacroBuilder.CallbackWithParameter | MacroBuilder/MacroBuilder.cs:80-83 | appends the `Callback` line with the frame defaulted to `"main_frame"` |
| Builder.MacroBuilder.CallbackInFrame | MacroBuilder/MacroBuilder.cs:92-95 | appends the `Callback` line over callback, parameter and frame |
| Builder.MacroBuilder.CheckValue | MacroBuilder/MacroBuilder.cs:103-106 | appends the `CheckValue` line: the quoted name, then the integer unquoted |
| Builder.MacroBuilder.CommandStart | MacroBuilder/MacroBuilder.cs:115-118 | appends the `CommandStart` line over command, parameter and frame |
| Builder.MacroBuilder.CommandEnd | MacroBuilder/MacroBuilder.cs:124-127 | appends `akit.CommandEnd();` and the terminator |
| Builder.MacroBuilder.FileSelection | MacroBuilder/MacroBuilder.cs:134-150 | appends `akit.FileSelection(` with every item quoted and `", "` only between items; a null item is written as `""` |
| Builder.MacroBuilder.ListSelect | MacroBuilder/MacroBuilder.cs:159-170 | appends the quoted dialog and field, then `", "` and the quoted item for every item, in order |
| Builder.MacroBuilder.ModalDialog | MacroBuilder/MacroBuilder.cs:177-180 | appends the `ModalDialog` line with its one integer |
| Builder.MacroBuilder.MouseDown | MacroBuilder/MacroBuilder.cs:191-194 | appends the `MouseDown` line: two strings and three integers in parameter order |
| Builder.MacroBuilder.MouseUp | MacroBuilder/MacroBuilder.cs:205-208 | appends the `MouseUp` line: two strings and three integers in parameter order |
| Builder.MacroBuilder.PushButton | MacroBuilder/MacroBuilder.cs:216-219 | appends the `PushButton` line over button and frame |
| Builder.MacroBuilder.TabChange | MacroBuilder/MacroBuilder.cs:228-231 | appends the `TabChange` line over dialog, field and item |
| Builder.MacroBuilder.TableSelect | MacroBuilder/MacroBuilder.cs:240-251 | appends the quoted dialog and field, then `", "` and the unquoted decimal of every item, in order |
| Builder.MacroBuilder.TreeSelect | MacroBuilder/MacroBuilder.cs:260-263 | appends the `TreeSelect` line over dialog, field and row string |
| Builder.MacroBuilder.ValueChange | MacroBuilder/MacroBuilder.cs:272-275 | appends the `ValueChange` line over dialog, field and data |
| Builder.MacroBuilder.Run | MacroBuilder/MacroBuilder.cs:280-312 | advances the slot cursor once, leaves the buffer as it was, and makes exactly the calls `RunCalls` lists for the new slot's name and the current buffer |
| Builder.ValueChangeLineExample | MacroBuilder/MacroBuilder.cs:272-275 | `ValueChange("d", "f", "x")` appends exactly `akit.ValueChange("d", "f", "x");` and the terminator |
| Builder.TableSelectLineExample | MacroBuilder/MacroBuilder.cs:240-251 | `TableSelect("d", "f", 1, 2, 3)` appends exactly `akit.TableSelect("d", "f", 1, 2, 3);` and the terminator |
| ScriptText.IntToDecimal | MacroBuilder/MacroBuilder.cs:368-371 | an integer argument is written as at least one character, with a leading '-' exactly when negative, and never contains a quote or a comma |
| ScriptText.NatToDecimal | MacroBuilder/MacroBuilder.cs:368-371 | the digits of a non-negative integer: at least one, all decimal digits, no leading zero |
| ScriptText.DecimalRoundTrip | MacroBuilder/MacroBuilder.cs:368-371 | the decimal text of every integer reads back as that integer |
| ScriptText.NatDecimalRoundTrip | MacroBuilder/MacroBuilder.cs:368-371 | the digits of a non-negative integer evaluate back to it |
| ScriptText.RenderQuoting | MacroBuilder/MacroBuilder.cs:364-371 | a rendered argument lies between quotes exactly when it is a string, an integer never contains a quote, and the rendering is empty exactly for null |
| ScriptText.JoinSnoc | MacroBuilder/MacroBuilder.cs:357-372 | one more part extends the separated list by the separator (except before the first part) and the part, which is how the loop builds it |
| ScriptText.TrailSnoc | MacroBuilder/MacroBuilder.cs:163-166 | one more part extends a separator-prefixed list by the separator and the part |
| ScriptText.RenderedStep | MacroBuilder/MacroBuilder.cs:357-372 | one more argument extends the rendered argument list by the separator (unless it is the first) and that argument's rendering |
| ScriptText.FileSelectionIsMethodCall | MacroBuilder/MacroBuilder.cs:134-150 | the FileSelection line is the generic call line over its items, with null items made empty strings |
| ScriptText.ListSelectIsMethodCall | MacroBuilder/MacroBuilder.cs:159-170 | the ListSelect line is the generic call line over dialog, field and its items |
| ScriptText.TableSelectIsMethodCall | MacroBuilder/MacroBuilder.cs:240-251 | the TableSelect line is the generic call line over dialog, field and its integer items |
| ScriptParse.LineRoundTrip | MacroBuilder/MacroBuilder.cs:353-376 | a generic call line reads back as its method name and arguments, provided no string argument contains a quote, the name has no '(' and the arguments are not a single null |
| ScriptParse.ArgListRoundTrip | MacroBuilder/MacroBuilder.cs:357-372 | a non-empty list of arguments without quotes inside strings reads back from its rendering |
| ScriptParse.TokenRoundTrip | MacroBuilder/MacroBuilder.cs:364-371 | one rendered argument is read back as one token, whatever separator follows it |
| ScriptParse.NullAloneIsNoArgument | MacroBuilder/MacroBuilder.cs:353-376 | a call with a single null argument writes the same line as a call with none |
| ScriptParse.QuoteInsideStringCollides | MacroBuilder/MacroBuilder.cs:364-367 | since nothing is escaped, a string holding `", "` writes the same line as the two strings around it |
| ScriptParse.JoinEmpty | MacroBuilder/MacroBuilder.cs:357-372 | a non-empty argument list renders empty only when it is a single null |
| FileNames.NextIndex | MacroBuilder/MacroBuilder.cs:386-393 | the cursor after one call is within the 32 slots: the random draw when unseeded, else the next slot modulo 32 |
| FileNames.TwoDigits | MacroBuilder/MacroBuilder.cs:424 | the `{0:00}` form of a slot is two decimal digits whose value is the slot |
| FileNames.FileName | MacroBuilder/MacroBuilder.cs:424 | a slot's name is 11 characters, `macro_`, two digits, `.cs` |
| FileNames.SlotOfFileName | MacroBuilder/MacroBuilder.cs:424 | the slot can be read back from its name |
| FileNames.FileNameInjective | MacroBuilder/MacroBuilder.cs:424 | two slots have the same name exactly when they are the same slot |
| FileNames.CursorAfter | MacroBuilder/MacroBuilder.cs:409 | over any run of calls the cursor stays in -1..31 and is -1 exactly before the first call |
| FileNames.CursorAfterRotates | MacroBuilder/MacroBuilder.cs:386-393 | after n calls the cursor is the first draw advanced n-1 times modulo 32; later draws are never used |
| FileNames.NameOfCallIs | MacroBuilder/MacroBuilder.cs:382-397 | the n-th call's name is that of slot (first draw + n - 1) mod 32 |
| FileNames.LapDistinct | MacroBuilder/MacroBuilder.cs:392 | within one lap of 32 steps the advanced cursor never revisits a slot |
| FileNames.RotationDistinct | MacroBuilder/MacroBuilder.cs:382-397 | any 32 consecutive calls from the start return 32 different names |
| FileNames.RotationCovers | MacroBuilder/MacroBuilder.cs:382-397 | every slot's name is returned by one of the first 32 calls |
| FileNames.RotationRepeats | MacroBuilder/MacroBuilder.cs:382-397 | the 33rd call returns the first call's name again |
| FileNames.FileNameRotator.constructor | MacroBuilder/MacroBuilder.cs:409 | the cursor starts unseeded at -1 |
| FileNames.FileNameRotator.GetMacroFileName | MacroBuilder/MacroBuilder.cs:382-397 | updates the cursor as NextIndex says, leaving it in 0..31, and returns that slot's name |
| Runner.EnvelopeRoundTrip | MacroBuilder/MacroBuilder.cs:288-297 | the script file is the fixed head, the buffer and `}}}`, and the buffer can be recovered from it |
| Runner.EnvelopeBodySound | MacroBuilder/MacroBuilder.cs:288-297 | whatever the envelope reader accepts is the envelope around what it returns |
| Runner.Envelope | MacroBuilder/MacroBuilder.cs:288-297 | the text written to the script file; its shape and inverse are stated by EnvelopeRoundTrip and EnvelopeBodySound |
| Runner.ByproductName | MacroBuilder/MacroBuilder.cs:301-302 | a byproduct's name; stated by ByproductNames |
| Runner.ByproductNames | MacroBuilder/MacroBuilder.cs:301-302 | the byproducts replace the trailing `cs` by `dll` and `pdb`; script, dll and pdb names are pairwise different |
| Runner.ScanBeforeEnd | MacroBuilder/MacroBuilder.cs:328 | the backward extension scan over a proper prefix finds a '.' exactly when one follows the last separator |
| Runner.HasExtensionMeans | MacroBuilder/MacroBuilder.cs:328 | a path has an extension exactly when it does not end in '.' and a '.' follows its last separator |
| Runner.HasExtensionUnderDirectory | MacroBuilder/MacroBuilder.cs:323-329 | prefixing a directory that ends in a separator does not change whether a path has an extension |
| Runner.HasExtensionCs | MacroBuilder/MacroBuilder.cs:328-329 | a path ending in `.cs` has an extension |
| Runner.MacroPath | MacroBuilder/MacroBuilder.cs:318-336 | the path RunMacro hands to the host, or none; stated by MacroPathShape |
| Runner.MacroPathShape | MacroBuilder/MacroBuilder.cs:318-336 | nothing runs without a connection; with one, the path is the drawings prefix exactly when a drawing is active, the name, and `.cs` exactly when the name has no extension, so the path always has one |
| Runner.RunCalls | MacroBuilder/MacroBuilder.cs:280-312 | the calls of one Run, in order; stated by RunCallsShape and RunDeletesWhatItWrites |
| Runner.RunCallsShape | MacroBuilder/MacroBuilder.cs:280-312 | one Run writes the enveloped buffer under its slot name, executes `..\` + that name (behind the drawings prefix when a drawing is active, with no `.cs` added) only when connected, then deletes the `.cs`, `.dll` and `.pdb` files |
| Runner.RunDeletesWhatItWrites | MacroBuilder/MacroBuilder.cs:280-312 | in the calls of a Run that raises nothing, every file written is deleted by a later call of the same Run |

## Left out

- File I/O and the host are not executed. `Run` returns the list of calls it would make (`WriteAllText`, `Execute`, `Delete`).
- `Path.Combine` with the `XS_MACRO_DIRECTORY` setting is not modelled. File names are kept relative to that directory.
- The `catch (IOException)` in `Run` is not modelled: an I/O failure is outside the model. This includes the later calls skipped after one.
- The busy-wait while the host reports a running macro is folded into the single `Execute` call. Time and `Thread.Sleep` are not modelled.
- The `lock` around the cursor is not modelled. The model is single-threaded.
- The cursor `_TempFileIndex` is static: every builder in the process shares it. The model passes a `FileNameRotator` to each `Run`, so a caller could give each Run its own fresh cursor, which the code does not allow. The rotation lemmas describe the one shared cursor.
- `Random` is replaced by the `seed` parameter. The model does not constrain how that parameter is drawn.
- `Environment.NewLine` is the opaque constant `NL`.
- Culture-dependent integer formatting is not modelled. Integers are written in the invariant culture: ASCII digits, with '-' for negatives.
- `Path.HasExtension` throws on characters that are invalid in a path, such as `|`, `<` or control characters. The model does not model that exception. The paths `Run` builds (`..\macro_NN.cs`, with or without the drawings prefix) contain none of them.
- A `params` array passed explicitly as null (`FileSelection(null)` and the like) is not modelled. Neither is the NullReferenceException it would raise after a partial append. The model's item lists are sequences, never null.
- Runner.RunDeletesWhatItWrites: holds only for a Run in which no file or host call raises. `Run` catches only `IOException`. Any other exception from `RunMacro` (for instance from `Operation.RunMacro`) leaves `Run` and skips the three deletes, leaving the script file behind.
- CommonTasks.cs (ready-made sequences of appender calls) is not part of this model.
