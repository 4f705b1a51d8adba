/**
 The temporary file slots of GetMacroFileName (MacroBuilder/MacroBuilder.cs):
 a process-wide cursor over MaxTempFiles slots, seeded at random on first
 use and advanced by one (modulo MaxTempFiles) on every later call, and the
 `macro_{0:00}.cs` naming template.
 */
module FileNames {
  import opened ScriptText

  const MaxTempFiles: int := 32

  /** The cursor before the first call (`_TempFileIndex = -1`). */
  const Unseeded: int := -1

  /** `_TempFileIndex` after one more call. `seed` is the value
      Random.Next(0, MaxTempFiles) would return; it is drawn only while the
      cursor is still negative. */
  function NextIndex(cursor: int, seed: int): (next: int)
    requires 0 <= seed < MaxTempFiles
    ensures 0 <= next < MaxTempFiles
    ensures cursor < 0 ==> next == seed
    ensures cursor >= 0 ==> next == (cursor + 1) % MaxTempFiles
  {
    if cursor < 0 then seed else (cursor + 1) % MaxTempFiles
  }

  /** The `{0:00}` format of a slot index: two decimal digits. */
  function TwoDigits(index: int): (s: string)
    requires 0 <= index < 100
    ensures |s| == 2 && IsDigit(s[0]) && IsDigit(s[1])
    ensures DigitValue(s[0]) * 10 + DigitValue(s[1]) == index
  {
    [DigitChar(index / 10), DigitChar(index % 10)]
  }

  /** `string.Format("macro_{0:00}.cs", index)`. */
  function FileName(index: int): (name: string)
    requires 0 <= index < MaxTempFiles
    ensures |name| == 11
    ensures name[..6] == "macro_" && name[8..] == ".cs"
  {
    "macro_" + TwoDigits(index) + ".cs"
  }

  /** The slot a file name was made for, read from its two digits. */
  function SlotOf(name: string): Option<int> {
    if |name| == 11 && name[..6] == "macro_" && name[8..] == ".cs"
       && IsDigit(name[6]) && IsDigit(name[7])
    then
      var i := DigitValue(name[6]) * 10 + DigitValue(name[7]);
      if i < MaxTempFiles then Some(i) else None
    else None
  }

  /** Every slot has its own name: the name gives the slot back. */
  lemma SlotOfFileName(index: int)
    requires 0 <= index < MaxTempFiles
    ensures SlotOf(FileName(index)) == Some(index)
  {
    var name := FileName(index);
    assert name[6..8] == TwoDigits(index);
  }

  lemma FileNameInjective(i: int, j: int)
    requires 0 <= i < MaxTempFiles && 0 <= j < MaxTempFiles
    ensures FileName(i) == FileName(j) <==> i == j
  {
    if FileName(i) == FileName(j) {
      SlotOfFileName(i);
      SlotOfFileName(j);
    }
  }

  /** The cursor after one call per element of `seeds`, starting unseeded;
      `seeds[k]` is what the random source would give on call k. */
  function CursorAfter(seeds: seq<int>): (cursor: int)
    requires forall k :: 0 <= k < |seeds| ==> 0 <= seeds[k] < MaxTempFiles
    ensures Unseeded <= cursor < MaxTempFiles
    ensures (cursor == Unseeded) <==> |seeds| == 0
    decreases |seeds|
  {
    if |seeds| == 0 then Unseeded
    else NextIndex(CursorAfter(seeds[..|seeds| - 1]), seeds[|seeds| - 1])
  }

  /** Only the first draw matters: after n >= 1 calls the cursor is the first
      seed advanced n - 1 times, whatever the later draws would have been. */
  lemma {:induction false} CursorAfterRotates(seeds: seq<int>)
    requires |seeds| >= 1
    requires forall k :: 0 <= k < |seeds| ==> 0 <= seeds[k] < MaxTempFiles
    ensures CursorAfter(seeds) == (seeds[0] + |seeds| - 1) % MaxTempFiles
    decreases |seeds|
  {
    if |seeds| > 1 {
      var front := seeds[..|seeds| - 1];
      assert front[0] == seeds[0];
      CursorAfterRotates(front);
      var before := seeds[0] + |seeds| - 2;
      assert CursorAfter(front) == before % MaxTempFiles;
      assert CursorAfter(seeds) == (before % MaxTempFiles + 1) % MaxTempFiles;
      ModSucc(before);
    }
  }

  /** Advancing the reduced cursor is reducing the advanced one. */
  lemma ModSucc(x: int)
    requires x >= 0
    ensures (x % MaxTempFiles + 1) % MaxTempFiles == (x + 1) % MaxTempFiles
  {
    var q, r := x / MaxTempFiles, x % MaxTempFiles;
    assert x == q * MaxTempFiles + r;
    if r + 1 < MaxTempFiles {
      assert x + 1 == q * MaxTempFiles + (r + 1);
    } else {
      assert x + 1 == (q + 1) * MaxTempFiles;
    }
  }

  /** The name of the n-th call (n >= 1) of a run of calls. */
  function NameOfCall(seeds: seq<int>, n: nat): string
    requires 1 <= n <= |seeds|
    requires forall k :: 0 <= k < |seeds| ==> 0 <= seeds[k] < MaxTempFiles
  {
    FileName(CursorAfter(seeds[..n]))
  }

  lemma NameOfCallIs(seeds: seq<int>, n: nat)
    requires 1 <= n <= |seeds|
    requires forall k :: 0 <= k < |seeds| ==> 0 <= seeds[k] < MaxTempFiles
    ensures NameOfCall(seeds, n) == FileName((seeds[0] + n - 1) % MaxTempFiles)
  {
    assert seeds[..n][0] == seeds[0];
    CursorAfterRotates(seeds[..n]);
  }

  /** Within one lap the advanced cursor never comes back to a slot. */
  lemma LapDistinct(s0: int, m: int, n: int)
    requires 0 <= s0 < MaxTempFiles && 1 <= m < n <= MaxTempFiles
    ensures (s0 + m - 1) % MaxTempFiles != (s0 + n - 1) % MaxTempFiles
  {
    var a, b := s0 + m - 1, s0 + n - 1;
    assert 0 <= a < b < a + MaxTempFiles;
    if a < MaxTempFiles && b >= MaxTempFiles {
      assert b % MaxTempFiles == b - MaxTempFiles;
    }
  }

  /** Thirty-two consecutive calls give thirty-two different names. */
  lemma RotationDistinct(seeds: seq<int>, m: nat, n: nat)
    requires 1 <= m < n <= MaxTempFiles && n <= |seeds|
    requires forall k :: 0 <= k < |seeds| ==> 0 <= seeds[k] < MaxTempFiles
    ensures NameOfCall(seeds, m) != NameOfCall(seeds, n)
  {
    NameOfCallIs(seeds, m);
    NameOfCallIs(seeds, n);
    LapDistinct(seeds[0], m, n);
    FileNameInjective((seeds[0] + m - 1) % MaxTempFiles, (seeds[0] + n - 1) % MaxTempFiles);
  }

  /** Every slot's name is among the names of thirty-two consecutive calls. */
  lemma RotationCovers(seeds: seq<int>, i: int) returns (n: nat)
    requires MaxTempFiles <= |seeds|
    requires forall k :: 0 <= k < |seeds| ==> 0 <= seeds[k] < MaxTempFiles
    requires 0 <= i < MaxTempFiles
    ensures 1 <= n <= MaxTempFiles && NameOfCall(seeds, n) == FileName(i)
  {
    var s0 := seeds[0];
    n := if s0 <= i then i - s0 + 1 else i - s0 + MaxTempFiles + 1;
    assert (s0 + n - 1) % MaxTempFiles == i;
    NameOfCallIs(seeds, n);
  }

  /** The thirty-third call repeats the name of the first. */
  lemma RotationRepeats(seeds: seq<int>)
    requires MaxTempFiles + 1 <= |seeds|
    requires forall k :: 0 <= k < |seeds| ==> 0 <= seeds[k] < MaxTempFiles
    ensures NameOfCall(seeds, MaxTempFiles + 1) == NameOfCall(seeds, 1)
  {
    var s0 := seeds[0];
    NameOfCallIs(seeds, 1);
    NameOfCallIs(seeds, MaxTempFiles + 1);
    assert s0 + (MaxTempFiles + 1) - 1 == s0 + MaxTempFiles;
    assert (s0 + MaxTempFiles) % MaxTempFiles == s0;
    assert (s0 + 1 - 1) % MaxTempFiles == s0;
  }

  /** The process-wide cursor `_TempFileIndex`. */
  class FileNameRotator {
    var index: int

    ghost predicate Valid()
      reads this
    {
      Unseeded <= index < MaxTempFiles
    }

    constructor ()
      ensures Valid() && index == Unseeded
    {
      index := Unseeded;
    }

    /** GetMacroFileName: advance the cursor and format its slot. */
    method GetMacroFileName(seed: int) returns (name: string)
      requires Valid() && 0 <= seed < MaxTempFiles
      modifies this
      ensures Valid() && 0 <= index
      ensures index == NextIndex(old(index), seed)
      ensures name == FileName(index)
    {
      if index < 0 {
        index := seed;
      } else {
        index := (index + 1) % MaxTempFiles;
      }
      name := "macro_" + TwoDigits(index) + ".cs";
    }
  }
}
