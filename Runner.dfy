/**
 The pure parts of Run and RunMacro (MacroBuilder/MacroBuilder.cs): the
 envelope written around the script buffer, the names of the compiler's
 byproducts, the path handed to the host, and the order of the host and
 file-system calls one Run makes. The calls themselves are only recorded,
 as HostCall values.
 */
module Runner {
  import opened ScriptText
  import opened FileNames

  // ---------------------------------------------------------------------
  // The envelope
  // ---------------------------------------------------------------------

  const EnvelopeHead: string :=
    "namespace Tekla.Technology.Akit.UserScript {" +
    "public class Script {" +
    "public static void Run(Tekla.Technology.Akit.IScript akit) {"

  const EnvelopeTail: string := "}" + "}" + "}"

  /** The text Run writes to the script file: the buffer inside one class
      with one static entry method taking the host handle `akit`. */
  function Envelope(body: string): string {
    "namespace Tekla.Technology.Akit.UserScript {" +
      "public class Script {" +
        "public static void Run(Tekla.Technology.Akit.IScript akit) {" +
          body +
        "}" +
      "}" +
    "}"
  }

  /** The buffer inside a script file, if the file has the envelope's shape. */
  function EnvelopeBody(script: string): Option<string> {
    var h, t := |EnvelopeHead|, |EnvelopeTail|;
    if |script| >= h + t && script[..h] == EnvelopeHead && script[|script| - t..] == EnvelopeTail
    then Some(script[h..|script| - t])
    else None
  }

  /** The script written is exactly the fixed head, the buffer and `}}}`, and
      the buffer can be recovered from it. */
  lemma EnvelopeRoundTrip(body: string)
    ensures Envelope(body) == EnvelopeHead + body + "}}}"
    ensures EnvelopeBody(Envelope(body)) == Some(body)
  {
    var s := Envelope(body);
    assert s == EnvelopeHead + body + EnvelopeTail;
    assert s[..|EnvelopeHead|] == EnvelopeHead;
    assert s[|s| - |EnvelopeTail|..] == EnvelopeTail;
    assert s[|EnvelopeHead|..|s| - |EnvelopeTail|] == body;
  }

  /** Whatever EnvelopeBody accepts is an envelope around what it returns. */
  lemma EnvelopeBodySound(script: string)
    requires EnvelopeBody(script).Some?
    ensures Envelope(EnvelopeBody(script).value) == script
  {
    var h, t := |EnvelopeHead|, |EnvelopeTail|;
    var body := script[h..|script| - t];
    assert script == script[..h] + body + script[|script| - t..];
    assert Envelope(body) == EnvelopeHead + body + EnvelopeTail;
  }

  // ---------------------------------------------------------------------
  // Byproduct names
  // ---------------------------------------------------------------------

  /** `Name.Substring(0, Name.Length - 2) + extension`. */
  function ByproductName(name: string, extension: string): string
    requires |name| >= 2
  {
    name[..|name| - 2] + extension
  }

  /** The byproducts of a slot's script replace its trailing `cs` by `dll`
      and `pdb`; the three files are different and share the base name. */
  lemma ByproductNames(index: int)
    requires 0 <= index < MaxTempFiles
    ensures ByproductName(FileName(index), "dll") == "macro_" + TwoDigits(index) + ".dll"
    ensures ByproductName(FileName(index), "pdb") == "macro_" + TwoDigits(index) + ".pdb"
    ensures ByproductName(FileName(index), "cs") == FileName(index)
    ensures FileName(index) != ByproductName(FileName(index), "dll")
    ensures FileName(index) != ByproductName(FileName(index), "pdb")
    ensures ByproductName(FileName(index), "dll") != ByproductName(FileName(index), "pdb")
  {
    var name := FileName(index);
    var base := "macro_" + TwoDigits(index) + ".";
    assert name == base + "cs";
    assert name[..|name| - 2] == base;
    assert ByproductName(name, "dll")[|base|] == 'd';
    assert ByproductName(name, "pdb")[|base|] == 'p';
    assert name[|base|] == 'c';
  }

  // ---------------------------------------------------------------------
  // Path.HasExtension (directory separators '\' and '/', volume separator ':')
  // ---------------------------------------------------------------------

  predicate IsSeparator(c: char) {
    c == '\\' || c == '/' || c == ':'
  }

  /** The backward scan of Path.HasExtension over path[..i]: the first '.'
      met gives true unless it is the path's last character; a separator
      met first gives false. */
  function ExtensionScan(path: string, i: nat): bool
    requires i <= |path|
    decreases i
  {
    if i == 0 then false
    else if path[i - 1] == '.' then i != |path|
    else if IsSeparator(path[i - 1]) then false
    else ExtensionScan(path, i - 1)
  }

  function HasExtension(path: string): bool {
    ExtensionScan(path, |path|)
  }

  /** path[..i] has a '.' with no separator after it. */
  ghost predicate DotInLastSegment(path: string, i: nat)
    requires i <= |path|
  {
    exists j :: 0 <= j < i && path[j] == '.' && forall k :: j < k < i ==> !IsSeparator(path[k])
  }

  lemma {:induction false} ScanBeforeEnd(path: string, i: nat)
    requires i < |path|
    ensures ExtensionScan(path, i) <==> DotInLastSegment(path, i)
    decreases i
  {
    if i > 0 {
      var c := path[i - 1];
      if c != '.' && !IsSeparator(c) {
        ScanBeforeEnd(path, i - 1);
        if DotInLastSegment(path, i) {
          var j :| 0 <= j < i && path[j] == '.' && forall k :: j < k < i ==> !IsSeparator(path[k]);
          assert j < i - 1;
        }
        if DotInLastSegment(path, i - 1) {
          var j :| 0 <= j < i - 1 && path[j] == '.' && forall k :: j < k < i - 1 ==> !IsSeparator(path[k]);
          assert forall k :: j < k < i ==> !IsSeparator(path[k]);
        }
      }
    }
  }

  /** Path.HasExtension, stated without the scan: the path does not end in
      '.', and a '.' follows its last separator. */
  lemma HasExtensionMeans(path: string)
    ensures HasExtension(path) <==>
      |path| > 0 && path[|path| - 1] != '.' && DotInLastSegment(path, |path|)
  {
    var n := |path|;
    if n > 0 {
      var c := path[n - 1];
      if c != '.' && !IsSeparator(c) {
        ScanBeforeEnd(path, n - 1);
        if DotInLastSegment(path, n) {
          var j :| 0 <= j < n && path[j] == '.' && forall k :: j < k < n ==> !IsSeparator(path[k]);
          assert j < n - 1;
        }
        if DotInLastSegment(path, n - 1) {
          var j :| 0 <= j < n - 1 && path[j] == '.' && forall k :: j < k < n - 1 ==> !IsSeparator(path[k]);
          assert forall k :: j < k < n ==> !IsSeparator(path[k]);
        }
      }
    }
  }

  lemma {:induction false} ScanShift(dir: string, name: string, i: nat)
    requires |dir| > 0 && IsSeparator(dir[|dir| - 1])
    requires i <= |name|
    ensures ExtensionScan(dir + name, |dir| + i) == ExtensionScan(name, i)
    decreases i
  {
    var p := dir + name;
    if i == 0 {
      assert p[|dir| - 1] == dir[|dir| - 1];
    } else {
      assert p[|dir| + i - 1] == name[i - 1];
      ScanShift(dir, name, i - 1);
    }
  }

  /** A directory prefix ending in a separator does not change whether a
      path has an extension. */
  lemma HasExtensionUnderDirectory(dir: string, name: string)
    requires |dir| > 0 && IsSeparator(dir[|dir| - 1])
    ensures HasExtension(dir + name) == HasExtension(name)
  {
    ScanShift(dir, name, |name|);
  }

  /** A path ending in `.cs` has an extension. */
  lemma HasExtensionCs(stem: string)
    ensures HasExtension(stem + ".cs")
  {
    var p := stem + ".cs";
    var n := |p|;
    assert p[n - 1] == 's' && p[n - 2] == 'c' && p[n - 3] == '.';
    assert ExtensionScan(p, n) == ExtensionScan(p, n - 1) == ExtensionScan(p, n - 2);
  }

  // ---------------------------------------------------------------------
  // RunMacro's path and the calls of one Run
  // ---------------------------------------------------------------------

  const DrawingsPrefix: string := "..\\drawings\\"

  /** The path RunMacro hands to Operation.RunMacro, or None when the host
      reports no connection (then nothing is run). `drawingActive` stands for
      `GetActiveDrawing() != null`, `connected` for `GetConnectionStatus()`. */
  function MacroPath(macroName: string, drawingActive: bool, connected: bool): Option<string> {
    var named := if drawingActive then DrawingsPrefix + macroName else macroName;
    if !connected then None
    else if HasExtension(named) then Some(named)
    else Some(named + ".cs")
  }

  /** With a connection, the path is the drawings prefix exactly when a
      drawing is active, then the name, then `.cs` exactly when the name has
      no extension; the path run always has an extension. Without a
      connection nothing runs. */
  lemma MacroPathShape(macroName: string, drawingActive: bool, connected: bool)
    ensures !connected <==> MacroPath(macroName, drawingActive, connected).None?
    ensures connected ==> (MacroPath(macroName, drawingActive, connected).value
      == (if drawingActive then DrawingsPrefix else "") + macroName
         + (if HasExtension(macroName) then "" else ".cs"))
    ensures connected ==> HasExtension(MacroPath(macroName, drawingActive, connected).value)
  {
    var named := if drawingActive then DrawingsPrefix + macroName else macroName;
    if drawingActive {
      HasExtensionUnderDirectory(DrawingsPrefix, macroName);
    } else {
      assert named == "" + macroName;
    }
    if !HasExtension(named) {
      HasExtensionCs(named);
    }
  }

  /** One call Run makes on the file system or the host. File names are
      relative to the host's macro directory. `Execute` stands for waiting
      while the host reports a running macro and then Operation.RunMacro. */
  datatype HostCall =
    | WriteAllText(file: string, contents: string)
    | Execute(path: string)
    | Delete(file: string)

  /** The calls of one Run whose slot file is `name` and whose buffer is `text`. */
  function RunCalls(name: string, text: string, drawingActive: bool, connected: bool): seq<HostCall>
    requires |name| >= 2
  {
    [WriteAllText(name, Envelope(text))]
    + (match MacroPath("..\\" + name, drawingActive, connected)
       case Some(path) => [Execute(path)]
       case None => [])
    + [Delete(name), Delete(ByproductName(name, "dll")), Delete(ByproductName(name, "pdb"))]
  }

  /** One Run writes the enveloped buffer under its slot's name, executes it
      (only when connected, under `..\`, with the drawings prefix when a
      drawing is active, and with no `.cs` added since the name has one), and
      then deletes the script and both byproducts. */
  lemma RunCallsShape(index: int, text: string, drawingActive: bool, connected: bool)
    requires 0 <= index < MaxTempFiles
    ensures var calls := RunCalls(FileName(index), text, drawingActive, connected);
      var name := FileName(index);
      && |calls| == (if connected then 5 else 4)
      && calls[0] == WriteAllText(name, Envelope(text))
      && (connected ==> calls[1] == Execute((if drawingActive then DrawingsPrefix else "") + "..\\" + name))
      && calls[|calls| - 3..] == [Delete(name), Delete("macro_" + TwoDigits(index) + ".dll"),
                                  Delete("macro_" + TwoDigits(index) + ".pdb")]
  {
    var name := FileName(index);
    var stem := "macro_" + TwoDigits(index);
    assert name == stem + ".cs";
    HasExtensionCs(stem);
    HasExtensionUnderDirectory("..\\", name);
    assert ("..\\" + name)[|"..\\"| - 1] == '\\';
    MacroPathShape("..\\" + name, drawingActive, connected);
    if drawingActive {
      assert DrawingsPrefix + ("..\\" + name) == DrawingsPrefix + "..\\" + name;
    } else {
      assert "" + ("..\\" + name) == "" + "..\\" + name;
    }
    ByproductNames(index);
  }

  /** Every file one Run writes is deleted by a later call of the same Run. */
  lemma RunDeletesWhatItWrites(name: string, text: string, drawingActive: bool, connected: bool)
    requires |name| >= 2
    ensures var calls := RunCalls(name, text, drawingActive, connected);
      forall k :: 0 <= k < |calls| && calls[k].WriteAllText? ==>
        exists m :: k < m < |calls| && calls[m] == Delete(calls[k].file)
  {
    var calls := RunCalls(name, text, drawingActive, connected);
    forall k | 0 <= k < |calls| && calls[k].WriteAllText?
      ensures exists m :: k < m < |calls| && calls[m] == Delete(calls[k].file)
    {
      assert k == 0;
      assert calls[|calls| - 3] == Delete(name);
    }
  }
}
