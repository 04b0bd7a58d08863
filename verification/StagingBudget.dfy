/** What staging guarantees: how large staged files get, and that every artifact is accounted for. */
module StagingBudget {
  import opened Text
  import opened Utf8
  import opened Staging

  // ---------------------------------------------------------------- one copy

  lemma MarkerIsAscii()
    ensures Ascii(Marker()) && WellFormed(Marker())
  {
    hide WellFormed, Marker;
    AsciiIsWellFormed(Marker());
  }

  lemma SelectedSize(raw: Bytes, allowed: nat)
    requires |raw| > allowed
    ensures |Selected(raw, allowed)| == allowed
    ensures Ascii(raw) ==> Ascii(Selected(raw, allowed))
  {
    hide Marker, WellFormed;
    MarkerIsAscii();
  }

  /** How much more than allowed a copy may take: nothing for ASCII files or files that fit, at most
      8 bytes for UTF-8 files, and never more than twice what was allowed. */
  function Growth(raw: Bytes, allowed: nat): nat {
    if |raw| <= allowed || Ascii(raw) then 0 else if WellFormed(raw) then Min(8, 2 * allowed) else 2 * allowed
  }

  lemma CopyFits(raw: Bytes, allowed: nat)
    ensures |CopyOf(raw, allowed)| <= allowed + Growth(raw, allowed)
    ensures |raw| <= allowed ==> CopyOf(raw, allowed) == raw
    ensures |raw| > allowed ==> WellFormed(CopyOf(raw, allowed))
    ensures |raw| > allowed && Ascii(raw) ==> |CopyOf(raw, allowed)| == allowed
  {
    hide WellFormed, Reencode, Selected, Ascii, Marker;
    if |raw| > allowed {
      var s := Selected(raw, allowed);
      SelectedSize(raw, allowed);
      ReencodedIsWellFormed(s);
      if Ascii(raw) {
        AsciiIsWellFormed(s);
        WellFormedStays(s);
      } else if WellFormed(raw) {
        CutText(raw, allowed);
      }
    }
  }

  /** What is kept of an ASCII file: its beginning, if only 128 bytes or fewer are allowed; else beginning and
      end in equal parts, up to a byte, around the marker. */
  lemma AsciiCopy(raw: Bytes, allowed: nat) returns (head: nat, end: nat)
    requires Ascii(raw) && |raw| > allowed
    ensures var copy := CopyOf(raw, allowed);
      && (allowed <= 128 ==> copy == raw[..allowed])
      && (allowed > 128 ==> head + 54 + end == allowed && head <= end <= head + 1
                            && copy == raw[..head] + Marker() + raw[|raw| - end..])
  {
    hide Reencode, WellFormed, Marker, Ascii;
    var kept := Selected(raw, allowed);
    SelectedSize(raw, allowed);
    AsciiIsWellFormed(kept);
    WellFormedStays(kept);
    head, end := 0, 0;
    if allowed > 128 {
      head, end := HeadSize(allowed), TailSize(allowed);
    }
  }

  /** A UTF-8 text cut in two places grows by at most 2 bytes at the first cut and 6 at the second. */
  lemma CutText(raw: Bytes, allowed: nat)
    requires |raw| > allowed && WellFormed(raw)
    ensures |TruncatedCopy(raw, allowed)| <= allowed + 8
  {
    hide Reencode, WellFormed, Marker;
    if allowed <= 128 {
      assert raw[..allowed] + [] == raw[..allowed];
      EmptyIsWellFormed();
      CutHead(raw, allowed, []);
    } else {
      var h, t := HeadSize(allowed), |raw| - TailSize(allowed);
      MarkerIsAscii();
      EmptyIsWellFormed();
      assert raw[..h] + [] == raw[..h];
      CutHead(raw, h, []);
      CutTail(raw, t);
      assert raw[..h] + Marker() + raw[t..] == raw[..h] + (Marker() + raw[t..]);
      AsciiSplits(raw[..h], Marker() + raw[t..]);
      WellFormedBefore(Marker(), raw[t..]);
    }
  }

  lemma EmptyIsWellFormed()
    ensures WellFormed([])
  {
  }

  // ---------------------------------------------------------------- the whole run

  function SizeOf(e: Entry): nat { if e.Staged? then |e.content| else 0 }

  function StagedBytes(entries: seq<Entry>): nat
    decreases |entries|
  {
    if entries == [] then 0 else StagedBytes(entries[..|entries| - 1]) + SizeOf(entries[|entries| - 1])
  }

  function StagedFiles(entries: seq<Entry>): nat
    decreases |entries|
  {
    if entries == [] then 0
    else StagedFiles(entries[..|entries| - 1]) + if entries[|entries| - 1].Staged? then 1 else 0
  }

  /** The existing artifacts, in order. */
  function Existing(artifacts: seq<Artifact>): seq<Artifact>
    decreases |artifacts|
  {
    if artifacts == [] then [] else
    var before, a := Existing(artifacts[..|artifacts| - 1]), artifacts[|artifacts| - 1];
    if a.source.Some? then before + [a] else before
  }

  /** A merged patch of 64000 bytes or more. */
  predicate Big(a: Artifact) {
    a.source.Some? && a.typ == "merged_patch.diff" && |a.source.value| >= 64_000
  }

  /** Big patches are only indexed if the settings say so, or by default for testers and communicators. */
  predicate ByPath(limits: Limits, role: string, a: Artifact) {
    Big(a) && (limits.large == Always(PathOnly) || (limits.large == Auto && role in {"tester", "communicator"}))
  }

  /** They are cut if the settings say so, or by default for reviewers and fixing executors. */
  predicate Cut(limits: Limits, role: string, phase: string, a: Artifact) {
    && Big(a)
    && (|| limits.large == Always(Truncate)
        || (limits.large == Auto && role == "reviewer")
        || (limits.large == Auto && role == "executor" && phase in {"FIXING", "REVIEW_FIXING"}))
  }

  /** The bytes a file may take: what is configured, and for a cut patch no more than 16384. */
  function FileLimit(limits: Limits, role: string, phase: string, a: Artifact): nat {
    if Cut(limits, role, phase, a) && limits.maxFileBytes > 16_384 then 16_384 else limits.maxFileBytes
  }

  lemma ModeMeans(limits: Limits, role: string, phase: string, a: Artifact)
    requires a.source.Some?
    ensures var mode := StagingMode(role, phase, a.typ, |a.source.value|, limits.large);
      && (mode == PathOnly <==> ByPath(limits, role, a))
      && (mode != PathOnly ==> MaxFileBytes(limits.maxFileBytes, mode) == FileLimit(limits, role, phase, a))
  {
  }

  /** What entry `i` is, given the entries before it. */
  ghost predicate EntryOk(limits: Limits, role: string, phase: string, entries: seq<Entry>, i: nat)
    requires i < |entries|
  {
    var e, files, total := entries[i], StagedFiles(entries[..i]), StagedBytes(entries[..i]);
    && e.a.source.Some?
    && (e.Indexed? <==> ByPath(limits, role, e.a))
    && (e.TooManyFiles? ==> files >= limits.maxFiles)
    && (e.TooManyBytes? ==> files < limits.maxFiles && total >= limits.maxTotalBytes)
    && (e.Staged? ==>
          files < limits.maxFiles && total < limits.maxTotalBytes &&
          var limit, left := FileLimit(limits, role, phase, e.a), limits.maxTotalBytes - total;
          var allowed := if limit < left then limit else left;
          && e.content == CopyOf(e.a.source.value, allowed)
          && (e.truncated <==> |e.a.source.value| > allowed))
  }

  ghost predicate LedgerOk(limits: Limits, role: string, phase: string, artifacts: seq<Artifact>, l: Ledger) {
    && |l.entries| == |Existing(artifacts)|
    && (forall i :: 0 <= i < |l.entries| ==> l.entries[i].a == Existing(artifacts)[i])
    && (forall i :: 0 <= i < |l.entries| ==> EntryOk(limits, role, phase, l.entries, i))
    && l.files == StagedFiles(l.entries) && l.total == StagedBytes(l.entries)
  }

  lemma EntriesNext(limits: Limits, role: string, phase: string, entries: seq<Entry>, e: Entry, i: nat)
    requires i < |entries| && EntryOk(limits, role, phase, entries, i)
    ensures EntryOk(limits, role, phase, entries + [e], i)
  {
    hide StagedFiles, StagedBytes, CopyOf, FileLimit, ByPath;
    assert (entries + [e])[..i] == entries[..i];
  }

  lemma SumsNext(entries: seq<Entry>, e: Entry)
    ensures StagedBytes(entries + [e]) == StagedBytes(entries) + SizeOf(e)
    ensures StagedFiles(entries + [e]) == StagedFiles(entries) + if e.Staged? then 1 else 0
    ensures (entries + [e])[..|entries|] == entries
  {
    assert (entries + [e])[..|entries|] == entries;
  }

  lemma StageOneAdds(limits: Limits, role: string, phase: string, l: Ledger, a: Artifact)
    requires a.source.Some? && l.files == StagedFiles(l.entries) && l.total == StagedBytes(l.entries)
    ensures var m := StageOne(limits, role, phase, l, a);
      && |m.entries| == |l.entries| + 1 && m.entries == l.entries + [m.entries[|l.entries|]]
      && m.entries[|l.entries|].a == a && EntryOk(limits, role, phase, m.entries, |l.entries|)
      && m.files == StagedFiles(m.entries) && m.total == StagedBytes(m.entries)
  {
    hide StagedFiles, StagedBytes, CopyOf, StagingMode, MaxFileBytes, FileLimit, ByPath;
    ModeMeans(limits, role, phase, a);
    var m := StageOne(limits, role, phase, l, a);
    SumsNext(l.entries, m.entries[|l.entries|]);
  }

  /** Every existing artifact gets exactly one entry, in order, and each entry is what the limits ask
      for given what was staged before it; the running totals are the sums of the entries. */
  lemma {:induction false} EveryArtifactAccounted(limits: Limits, role: string, phase: string, artifacts: seq<Artifact>)
    ensures LedgerOk(limits, role, phase, artifacts, StageAll(limits, role, phase, artifacts))
    decreases |artifacts|
  {
    hide EntryOk, StageOne, StagedFiles, StagedBytes;
    if artifacts == [] {
      NothingStaged();
    } else {
      var before, a := artifacts[..|artifacts| - 1], artifacts[|artifacts| - 1];
      EveryArtifactAccounted(limits, role, phase, before);
      var l := StageAll(limits, role, phase, before);
      if a.source.Some? {
        StageOneAdds(limits, role, phase, l, a);
        var e := StageOne(limits, role, phase, l, a).entries[|l.entries|];
        forall i | 0 <= i < |l.entries| ensures EntryOk(limits, role, phase, l.entries + [e], i) {
          EntriesNext(limits, role, phase, l.entries, e, i);
        }
      } else {
        SkippedGone(limits, role, phase, l, a);
      }
    }
  }

  lemma NothingStaged()
    ensures StagedFiles([]) == 0 && StagedBytes([]) == 0
  {
  }

  lemma SkippedGone(limits: Limits, role: string, phase: string, l: Ledger, a: Artifact)
    requires a.source.None?
    ensures StageOne(limits, role, phase, l, a) == l
  {
  }

  /** Staging a file of this run makes it grow by at most `growth` bytes. */
  ghost predicate GrowsAtMost(limits: Limits, e: Entry, growth: nat) {
    e.Staged? && e.a.source.Some? ==>
      forall n :: 0 <= n <= limits.maxFileBytes ==> Growth(e.a.source.value, n) <= growth
  }

  /** No limit is exceeded by more than the growth of one file. */
  lemma {:induction false} EntriesHoldLimits(limits: Limits, role: string, phase: string, entries: seq<Entry>,
                                             growth: nat)
    requires forall i :: 0 <= i < |entries| ==> EntryOk(limits, role, phase, entries, i)
    requires forall i :: 0 <= i < |entries| ==> GrowsAtMost(limits, entries[i], growth)
    ensures StagedFiles(entries) <= limits.maxFiles
    ensures StagedBytes(entries) <= limits.maxTotalBytes + growth
    ensures forall i :: 0 <= i < |entries| && entries[i].Staged? ==>
      entries[i].a.source.Some? &&
      |entries[i].content| <= FileLimit(limits, role, phase, entries[i].a) + growth
    decreases |entries|
  {
    hide CopyOf, FileLimit, Growth, EntryOk, GrowsAtMost;
    if entries != [] {
      var before, last := entries[..|entries| - 1], entries[|entries| - 1];
      forall i | 0 <= i < |before| ensures EntryOk(limits, role, phase, before, i) {
        EntryOfPrefix(limits, role, phase, entries, |before|, i);
      }
      EntriesHoldLimits(limits, role, phase, before, growth);
      LastHoldsLimits(limits, role, phase, entries, growth);
    }
  }

  lemma EntryOfPrefix(limits: Limits, role: string, phase: string, entries: seq<Entry>, n: nat, i: nat)
    requires i < n <= |entries| && EntryOk(limits, role, phase, entries, i)
    ensures EntryOk(limits, role, phase, entries[..n], i)
  {
    hide CopyOf, StagedFiles, StagedBytes, FileLimit, ByPath;
    assert entries[..n][..i] == entries[..i];
  }

  lemma LastHoldsLimits(limits: Limits, role: string, phase: string, entries: seq<Entry>, growth: nat)
    requires entries != [] && EntryOk(limits, role, phase, entries, |entries| - 1)
    requires GrowsAtMost(limits, entries[|entries| - 1], growth)
    requires StagedFiles(entries[..|entries| - 1]) <= limits.maxFiles
    requires StagedBytes(entries[..|entries| - 1]) <= limits.maxTotalBytes + growth
    ensures StagedFiles(entries) <= limits.maxFiles
    ensures StagedBytes(entries) <= limits.maxTotalBytes + growth
    ensures var e := entries[|entries| - 1]; e.Staged? ==>
      e.a.source.Some? && |e.content| <= FileLimit(limits, role, phase, e.a) + growth
  {
    hide CopyOf, Cut, Growth;
    var before, last := entries[..|entries| - 1], entries[|entries| - 1];
    if last.Staged? {
      var limit, left := FileLimit(limits, role, phase, last.a), limits.maxTotalBytes - StagedBytes(before);
      var allowed := if limit < left then limit else left;
      CopyFits(last.a.source.value, allowed);
    }
  }

  /** How far one file can push a run over its byte limits. */
  ghost function Overshoot(limits: Limits, artifacts: seq<Artifact>): nat {
    if forall a :: a in artifacts && a.source.Some? ==> Ascii(a.source.value) then 0
    else if forall a :: a in artifacts && a.source.Some? ==> WellFormed(a.source.value) then 8
    else 2 * limits.maxFileBytes
  }

  /** A run stages at most `maxFiles` files; each of them and all together stay within their byte
      limits exactly for ASCII sources, and within 8 bytes of them for UTF-8 sources. */
  lemma StagingWithinBudget(limits: Limits, role: string, phase: string, artifacts: seq<Artifact>)
    ensures var l, over := StageAll(limits, role, phase, artifacts), Overshoot(limits, artifacts);
      && l.files == StagedFiles(l.entries) <= limits.maxFiles
      && l.total == StagedBytes(l.entries) <= limits.maxTotalBytes + over
      && forall i :: 0 <= i < |l.entries| && l.entries[i].Staged? ==>
           l.entries[i].a.source.Some? &&
           |l.entries[i].content|
           <= FileLimit(limits, role, phase, l.entries[i].a) + over
  {
    hide EntryOk, GrowsAtMost, StageAll, Overshoot, StagingMode, Existing;
    EveryArtifactAccounted(limits, role, phase, artifacts);
    var l, over := StageAll(limits, role, phase, artifacts), Overshoot(limits, artifacts);
    forall i | 0 <= i < |l.entries| ensures GrowsAtMost(limits, l.entries[i], over) {
      ExistingMembers(artifacts, Existing(artifacts)[i]);
      GrowthBounded(limits, artifacts, l.entries[i]);
    }
    EntriesHoldLimits(limits, role, phase, l.entries, over);
  }

  lemma {:induction false} ExistingMembers(artifacts: seq<Artifact>, a: Artifact)
    requires a in Existing(artifacts)
    ensures a in artifacts && a.source.Some?
    decreases |artifacts|
  {
    var before, last := artifacts[..|artifacts| - 1], artifacts[|artifacts| - 1];
    assert artifacts == before + [last];
    if a in Existing(before) { ExistingMembers(before, a); }
  }

  lemma GrowthBounded(limits: Limits, artifacts: seq<Artifact>, e: Entry)
    requires e.a in artifacts && e.a.source.Some?
    ensures GrowsAtMost(limits, e, Overshoot(limits, artifacts))
  {
    hide WellFormed, Ascii;
  }
}
