/** Staging the visible artifacts of earlier phases into an agent's input directory, within limits on
    files, bytes per file and bytes in all. */
module Staging {
  import opened Text
  import opened Utf8

  datatype Mode = Copy | PathOnly | Truncate

  /** `large_artifact_mode`. */
  datatype LargeMode = Auto | Always(mode: Mode)

  /** `source` is the content of the artifact's file, if it exists; `stamp` stands for what the cache
      digest is made of (path, size, time, id, version, hash). */
  datatype Artifact = Artifact(typ: string, source: Option<Bytes>, stamp: nat)

  type Positive = n: nat | n > 0 witness 1

  datatype Limits = Limits(maxFiles: Positive, maxFileBytes: Positive, maxTotalBytes: Positive, large: LargeMode)

  /** `artifact_staging_mode`. */
  function StagingMode(role: string, phase: string, typ: string, size: nat, large: LargeMode): Mode {
    if typ != "merged_patch.diff" || size < 64_000 then Copy
    else if large.Always? then large.mode
    else if role in {"tester", "communicator"} then PathOnly
    else if role == "reviewer" || (role == "executor" && phase in {"FIXING", "REVIEW_FIXING"}) then Truncate
    else Copy
  }

  function Min(a: nat, b: nat): nat { if a < b then a else b }

  function MaxFileBytes(configured: nat, mode: Mode): nat {
    if mode == Truncate then Min(configured, 16_384) else configured
  }

  type Low = b: int | 0 <= b < 128

  /** The 54 bytes between the head and the tail of a truncated file. */
  function Marker(): (m: seq<Low>)
    ensures |m| == 54
  {
    [10, 10, 46, 46, 46, 91, 97, 114, 116, 105, 102, 97, 99, 116, 32, 116, 114, 117, 110, 99, 97, 116, 101, 100, 32,
     98, 121, 32, 72, 97, 114, 110, 101, 115, 115, 32, 105, 110, 112, 117, 116, 32, 98, 117, 100, 103, 101, 116, 93, 46,
     46, 46, 10, 10]
  }

  /** The head and the tail sizes of a truncation to more than 128 bytes. */
  function HeadSize(allowed: nat): nat
    requires allowed > 128
  {
    (allowed - 54) / 2
  }

  function TailSize(allowed: nat): nat
    requires allowed > 128
  {
    allowed - 54 - HeadSize(allowed)
  }

  function Selected(raw: Bytes, allowed: nat): Bytes
    requires |raw| > allowed
  {
    if allowed <= 128 then raw[..allowed]
    else raw[..HeadSize(allowed)] + Marker() + raw[|raw| - TailSize(allowed)..]
  }

  function TruncatedCopy(raw: Bytes, allowed: nat): Bytes
    requires |raw| > allowed
  {
    Reencode(Selected(raw, allowed))
  }

  /** What is staged of a file when `allowed` bytes may be. */
  function CopyOf(raw: Bytes, allowed: nat): Bytes {
    if |raw| <= allowed then raw else TruncatedCopy(raw, allowed)
  }

  datatype Entry =
    | Indexed(a: Artifact)
    | TooManyFiles(a: Artifact)
    | TooManyBytes(a: Artifact)
    | Staged(a: Artifact, content: Bytes, truncated: bool)

  datatype Ledger = Ledger(entries: seq<Entry>, files: nat, total: nat)

  const EMPTY := Ledger([], 0, 0)

  /** The bytes that may be staged of an artifact, given what was staged before. */
  function Allowed(limits: Limits, mode: Mode, total: nat): nat
    requires total < limits.maxTotalBytes
  {
    Min(MaxFileBytes(limits.maxFileBytes, mode), limits.maxTotalBytes - total)
  }

  /** One turn of the loop; artifacts whose file is gone leave no entry. */
  function StageOne(limits: Limits, role: string, phase: string, l: Ledger, a: Artifact): Ledger {
    if a.source.None? then l else
    var raw := a.source.value;
    var mode := StagingMode(role, phase, a.typ, |raw|, limits.large);
    if mode == PathOnly then l.(entries := l.entries + [Indexed(a)])
    else if l.files >= limits.maxFiles then l.(entries := l.entries + [TooManyFiles(a)])
    else if l.total >= limits.maxTotalBytes then l.(entries := l.entries + [TooManyBytes(a)])
    else
      var allowed := Allowed(limits, mode, l.total);
      Ledger(
        l.entries + [Staged(a, CopyOf(raw, allowed), |raw| > allowed)], l.files + 1, l.total + |CopyOf(raw, allowed)|)
  }

  function StageAll(limits: Limits, role: string, phase: string, artifacts: seq<Artifact>): Ledger
    decreases |artifacts|
  {
    if artifacts == [] then EMPTY
    else StageOne(
      limits, role, phase, StageAll(limits, role, phase, artifacts[..|artifacts| - 1]), artifacts[|artifacts| - 1])
  }

  function Reversed(xs: seq<Artifact>): seq<Artifact>
    decreases |xs|
  {
    if xs == [] then [] else [xs[|xs| - 1]] + Reversed(xs[..|xs| - 1])
  }

  class InputStagingService {
    /** Truncated copies by digest and allowed size. */
    var cache: map<(nat, nat), Bytes>

    constructor ()
      ensures cache == map[] && forall files :: Sound(files)
    {
      cache := map[];
    }

    /** Every cached copy is what truncating the file behind its digest would give. */
    ghost predicate Sound(files: map<nat, Bytes>)
      reads this
    {
      forall k :: k in cache ==>
        k.0 in files && |files[k.0]| > k.1 && cache[k] == TruncatedCopy(files[k.0], k.1)
    }

    /** `copy_artifact_with_budget`: what is written to the destination, and whether it was cut. */
    method CopyArtifactWithBudget(raw: Bytes, stamp: nat, maxFileBytes: nat, remaining: nat, ghost files: map<nat,
                                  Bytes>)
      returns (content: Bytes, truncated: bool)
      requires Sound(files) && stamp in files && files[stamp] == raw
      modifies this
      ensures Sound(files) && old(cache).Keys <= cache.Keys
      ensures content == CopyOf(raw, Min(maxFileBytes, remaining))
      ensures truncated == (|raw| > Min(maxFileBytes, remaining))
    {
      hide TruncatedCopy;
      var allowed := Min(maxFileBytes, remaining);
      if |raw| <= allowed {
        return raw, false;
      }
      if (stamp, allowed) in cache {
        return cache[(stamp, allowed)], true;
      }
      content := TruncatedCopy(raw, allowed);
      cache := cache[(stamp, allowed) := content];
      truncated := true;
    }

    /** The loop of `stage`, from the last visible artifact to the first; digests stand for contents. */
    method Stage(limits: Limits, role: string, phase: string, visible: seq<Artifact>, ghost files: map<nat, Bytes>)
      returns (l: Ledger)
      requires Sound(files)
      requires forall a :: a in visible && a.source.Some? ==> a.stamp in files && files[a.stamp] == a.source.value
      modifies this
      ensures Sound(files)
      ensures l == StageAll(limits, role, phase, Reversed(visible))
    {
      hide CopyOf, StagingMode, MaxFileBytes, Sound;
      var entries: seq<Entry>, count: nat, total: nat := [], 0, 0;
      var order := Reversed(visible);
      ReversedMembers(visible);
      assert order[..0] == [];
      for n := 0 to |order|
        invariant Sound(files)
        invariant Ledger(entries, count, total) == StageAll(limits, role, phase, order[..n])
      {
        assert order[..n + 1][..n] == order[..n];
        var a := order[n];
        assert a in order;
        if a.source.None? {
          continue;
        }
        var raw := a.source.value;
        var mode := StagingMode(role, phase, a.typ, |raw|, limits.large);
        if mode == PathOnly {
          entries := entries + [Indexed(a)];
          continue;
        }
        if count >= limits.maxFiles {
          entries := entries + [TooManyFiles(a)];
          continue;
        }
        var remaining := limits.maxTotalBytes - total;
        if remaining <= 0 {
          entries := entries + [TooManyBytes(a)];
          continue;
        }
        var content, truncated :=
          CopyArtifactWithBudget(raw, a.stamp, MaxFileBytes(limits.maxFileBytes, mode), remaining, files);
        total := total + |content|;
        count := count + 1;
        entries := entries + [Staged(a, content, truncated)];
      }
      assert order[..|order|] == order;
      l := Ledger(entries, count, total);
    }
  }

  /** The latest of the visible artifacts comes first. */
  lemma {:induction false} ReversedAt(xs: seq<Artifact>, i: nat)
    requires i < |xs|
    ensures |Reversed(xs)| == |xs| && Reversed(xs)[i] == xs[|xs| - 1 - i]
    decreases |xs|
  {
    ReversedMembers(xs);
    if i > 0 { ReversedAt(xs[..|xs| - 1], i - 1); }
  }

  lemma {:induction false} ReversedMembers(xs: seq<Artifact>)
    ensures |Reversed(xs)| == |xs| && forall a :: a in Reversed(xs) <==> a in xs
    decreases |xs|
  {
    if xs != [] {
      ReversedMembers(xs[..|xs| - 1]);
      assert xs == xs[..|xs| - 1] + [xs[|xs| - 1]];
    }
  }
}
