/**
 * The batch loader of `src/io.rs`: a map from requested path to the outcome of
 * reading it, seeded with an empty placeholder per path, overwritten by each
 * fetch, polled until every entry is resolved, and read back with `Get`.
 *
 * Timers, `Rc<RefCell<..>>` and the float progress value are abstracted away:
 * one poll of the self-rescheduling timer is one call of `LoadBatch.Tick`, a
 * failed `try_borrow` is the `borrowed == false` argument of that call, and
 * progress is reported as the integer pair (count, total).
 */
module Io {
  import opened Wrappers

  newtype byte = x: int | 0 <= x < 256

  /** A platform I/O error (`std::io::Error`); its payload is opaque. */
  datatype IoError = IoError(kind: nat)

  /** One entry of `Loaded`: the bytes read, or the error that stopped the read. */
  type Outcome = Result<seq<byte>, IoError>

  /** `Loaded`: requested path to outcome. */
  type Loaded = map<string, Outcome>

  /** The `Error` cases the loader itself produces (image, bincode and obj errors are not part of this model). */
  datatype Error = IO(ioError: IoError) | FailedToLoad(message: string)

  /** What the file system answers for one path: `File::open` fails, `read_to_end` fails, or the whole file is read. */
  datatype FsResponse = OpenFailed(openError: IoError) | ReadFailed(readError: IoError) | ReadAll(contents: seq<byte>)

  /** The result of one poll of the map. */
  datatype TickResult =
    | Contended                          // the map could not be borrowed: stay in Polling, report nothing
    | Loading(count: nat, total: nat)    // progress count/total reported, poll again
    | Done(count: nat, total: nat)       // progress count/total reported, on_done called

  const NotLoadedPrefix: string := "Tried to use a resource which was not loaded: "
  const CouldNotLoadPrefix: string := "Could not load resource: "

  /** The placeholder seeded for every path before its fetch writes. */
  const Placeholder: Outcome := Ok([])

  // ---------------------------------------------------------------------------
  // Resolution and counting

  /** The poller's test of one entry: an error, or a non-empty buffer. A zero-length `Ok` is indistinguishable from the placeholder. */
  predicate Resolved(o: Outcome) {
    o.Err? || |o.value| > 0
  }

  predicate AllResolved(m: Loaded) {
    forall k :: k in m ==> Resolved(m[k])
  }

  function ResolvedKeys(m: Loaded): set<string> {
    set k | k in m && Resolved(m[k])
  }

  lemma SubsetCard<T>(a: set<T>, b: set<T>)
    requires a <= b
    ensures |a| <= |b|
    ensures |a| == |b| ==> a == b
  {
    var d := b - a;
    assert a * d == {};
    assert b == a + d;
    if |a| == |b| {
      assert |d| == 0;
    }
  }

  /** The number of resolved entries: never more than the entries there are, and all of them exactly when every entry is resolved. */
  function ResolvedCount(m: Loaded): (r: nat)
    ensures r <= |m|
    ensures r == |m| <==> AllResolved(m)
  {
    ResolvedKeysFacts(m);
    |ResolvedKeys(m)|
  }

  lemma ResolvedKeysFacts(m: Loaded)
    ensures |ResolvedKeys(m)| <= |m|
    ensures |ResolvedKeys(m)| == |m| <==> AllResolved(m)
  {
    var rk := ResolvedKeys(m);
    SubsetCard(rk, m.Keys);
    if AllResolved(m) {
      assert rk == m.Keys;
    }
    if |rk| == |m| {
      assert rk == m.Keys;
      forall k | k in m ensures Resolved(m[k]) {
        assert k in rk;
      }
    }
  }

  /** What a poll decides from the map it sees (src/io.rs:111-124). */
  function Decide(m: Loaded, borrowed: bool): (r: TickResult)
    ensures r.Contended? <==> !borrowed
    ensures r.Done? <==> borrowed && AllResolved(m)
    ensures r.Loading? <==> borrowed && !AllResolved(m)
    ensures !r.Contended? ==> r.total == |m| && r.count <= r.total && r.count == |ResolvedKeys(m)|
    ensures r.Loading? ==> r.count < r.total
    ensures r.Done? ==> r.count == r.total
  {
    if !borrowed then Contended
    else
      var count := ResolvedCount(m);
      if count < |m| then Loading(count, |m|) else Done(count, |m|)
  }

  /** The value handed to the progress callback, when the batch is not empty. */
  function Progress(count: nat, total: nat): (p: real)
    requires count <= total && total > 0
    ensures 0.0 <= p <= 1.0
    ensures p == 1.0 <==> count == total
  {
    count as real / total as real
  }

  // ---------------------------------------------------------------------------
  // Fetching

  /** The entry the native `load_file` writes for a file-system answer. */
  function FetchOutcome(response: FsResponse): Outcome {
    match response
    case OpenFailed(e) => Err(e)
    case ReadFailed(e) => Err(e)
    case ReadAll(bytes) => Ok(bytes)
  }

  /** The map the native seeding loop leaves behind: one entry per distinct path, each the outcome of reading it. */
  function NativeLoads(paths: seq<string>, fs: string -> FsResponse): Loaded {
    map p | p in paths :: FetchOutcome(fs(p))
  }

  // ---------------------------------------------------------------------------
  // Lookup

  /** `Loader::get`: the bytes of a loaded path, or one of the two `FailedToLoad` errors. */
  function Get(loaded: Loaded, path: string): (r: Result<seq<byte>, Error>)
    ensures r.Ok? <==> path in loaded && loaded[path].Ok?
    ensures r.Ok? ==> r.value == loaded[path].value
    ensures path !in loaded ==> r == Err(FailedToLoad(NotLoadedPrefix + path))
    ensures path in loaded && loaded[path].Err? ==> r == Err(FailedToLoad(CouldNotLoadPrefix + path))
  {
    if path !in loaded then Err(FailedToLoad(NotLoadedPrefix + path))
    else match loaded[path]
      case Err(_) => Err(FailedToLoad(CouldNotLoadPrefix + path))
      case Ok(bytes) => Ok(bytes)
  }

  // ---------------------------------------------------------------------------
  // The shared map and its poller

  /** The `Rc<RefCell<Loaded>>` of one batch, together with the state of the poller reading it. */
  class LoadBatch {
    var loads: Loaded
    /** The poller took its completion branch and called `on_done`; it never schedules another tick afterwards. Only `Tick` sets it. */
    var done: bool

    constructor ()
      ensures loads == map[] && !done
    {
      loads := map[];
      done := false;
    }

    /** The placeholder insert of the seeding loop (src/io.rs:84). */
    method Seed(path: string)
      modifies this`loads
      ensures loads == old(loads)[path := Placeholder]
      ensures loads.Keys == old(loads.Keys) + {path}
      ensures !Resolved(loads[path])
    {
      loads := loads[path := Placeholder];
    }

    /**
     * The native `load_file` (src/io.rs:155-167): overwrite the entry of `path` with
     * the open error, the read error or the bytes read. The browser variant (not part
     * of this model) only ever writes `Ok(body)`, also for an HTTP error status; a
     * rejected `fetch` or a failed body read panics at its `unwrap` instead of writing.
     */
    method LoadFile(path: string, response: FsResponse)
      modifies this`loads
      ensures loads == old(loads)[path := FetchOutcome(response)]
      ensures path in old(loads) ==> loads.Keys == old(loads.Keys)
      ensures loads[path].Err? <==> !response.ReadAll?
      ensures response.ReadAll? ==> loads[path] == Ok(response.contents)
    {
      match response
      case OpenFailed(e) =>
        loads := loads[path := Err(e)];
      case ReadFailed(e) =>
        loads := loads[path := Err(e)];
      case ReadAll(bytes) =>
        loads := loads[path := Ok(bytes)];
    }

    /** The counting loop of one poll (src/io.rs:113-119). */
    method CountResolved() returns (count: nat)
      ensures count == |ResolvedKeys(loads)|
      ensures count <= |loads|
    {
      count := 0;
      var rest := loads.Keys;
      while rest != {}
        invariant rest <= loads.Keys
        invariant count == |ResolvedKeys(loads) - rest|
        decreases |rest|
      {
        var k :| k in rest;
        ghost var before := ResolvedKeys(loads) - rest;
        if Resolved(loads[k]) {
          assert ResolvedKeys(loads) - (rest - {k}) == before + {k};
          count := count + 1;
        } else {
          assert ResolvedKeys(loads) - (rest - {k}) == before;
        }
        rest := rest - {k};
      }
      assert ResolvedKeys(loads) - rest == ResolvedKeys(loads);
      SubsetCard(ResolvedKeys(loads), loads.Keys);
    }

    /**
     * One tick of `wait_local` (src/io.rs:109-132). `borrowed` is whether `try_borrow`
     * succeeded. On the completion branch `on_done` is called and no further tick is
     * scheduled, which is why a tick requires that the batch is not done yet.
     */
    method Tick(borrowed: bool) returns (r: TickResult)
      requires !done
      modifies this`done
      ensures loads == old(loads)
      ensures r == Decide(loads, borrowed)
      ensures done <==> r.Done?
      ensures done ==> AllResolved(loads)
    {
      if !borrowed {
        return Contended;
      }
      var total := |loads|;
      var count := CountResolved();
      if count < total {
        r := Loading(count, total);
      } else {
        done := true;
        r := Done(count, total);
      }
    }
  }

  /**
   * The seeding loop of `load_with_progress` (src/io.rs:82-86) with the native
   * `load_file`: each path is seeded with the placeholder and then read at once.
   */
  method SeedAndFetch(paths: seq<string>, fs: string -> FsResponse) returns (batch: LoadBatch)
    ensures fresh(batch) && !batch.done
    ensures batch.loads == NativeLoads(paths, fs)
  {
    batch := new LoadBatch();
    for i := 0 to |paths|
      invariant !batch.done
      invariant batch.loads == NativeLoads(paths[..i], fs)
    {
      batch.Seed(paths[i]);
      batch.LoadFile(paths[i], fs(paths[i]));
      assert paths[..i + 1] == paths[..i] + [paths[i]];
    }
    assert paths[..|paths|] == paths;
  }

  /**
   * The self-rescheduling poll of `wait_local` (src/io.rs:104-133), one `Tick` per
   * timer expiry: `borrows[i]` is whether `try_borrow` succeeds on the i-th expiry.
   * It polls again while loading and stops after the tick that calls `on_done`;
   * when the expiries run out first, the batch is still polling.
   */
  method WaitLocal(batch: LoadBatch, borrows: seq<bool>) returns (reports: seq<TickResult>)
    requires !batch.done
    modifies batch`done
    ensures batch.loads == old(batch.loads)
    ensures |reports| <= |borrows|
    ensures forall i :: 0 <= i < |reports| ==> reports[i] == Decide(batch.loads, borrows[i])
    ensures forall i :: 0 <= i < |reports| - 1 ==> !reports[i].Done?
    ensures batch.done <==> |reports| > 0 && reports[|reports| - 1].Done?
    ensures |reports| < |borrows| ==> batch.done
  {
    reports := [];
    var i := 0;
    while i < |borrows| && !batch.done
      invariant 0 <= i <= |borrows|
      invariant |reports| == i
      invariant batch.loads == old(batch.loads)
      invariant forall j :: 0 <= j < i ==> reports[j] == Decide(batch.loads, borrows[j])
      invariant forall j :: 0 <= j < i - 1 ==> !reports[j].Done?
      invariant batch.done <==> i > 0 && reports[i - 1].Done?
    {
      var r := batch.Tick(borrows[i]);
      reports := reports + [r];
      i := i + 1;
    }
  }

  /**
   * `load_with_progress` (src/io.rs:77-89): seed and read every path, then start the
   * poller. The progress callback receives the count/total of every non-contended report.
   */
  method LoadWithProgress(paths: seq<string>, fs: string -> FsResponse, borrows: seq<bool>)
    returns (batch: LoadBatch, reports: seq<TickResult>)
    ensures fresh(batch)
    ensures batch.loads == NativeLoads(paths, fs)
    ensures |reports| <= |borrows|
    ensures forall i :: 0 <= i < |reports| ==> reports[i] == Decide(batch.loads, borrows[i])
    ensures forall i :: 0 <= i < |reports| - 1 ==> !reports[i].Done?
    ensures batch.done <==> |reports| > 0 && reports[|reports| - 1].Done?
    ensures |reports| < |borrows| ==> batch.done
  {
    batch := SeedAndFetch(paths, fs);
    reports := WaitLocal(batch, borrows);
  }

  // ---------------------------------------------------------------------------
  // Properties of a batch

  /** After the seeding loop the key set is exactly the set of requested paths, duplicates collapsed. */
  lemma NativeLoadsKeys(paths: seq<string>, fs: string -> FsResponse)
    ensures NativeLoads(paths, fs).Keys == set p | p in paths
    ensures |NativeLoads(paths, fs)| <= |paths|
  {
    NativeLoadsSize(paths, fs);
  }

  lemma {:induction false} NativeLoadsSize(paths: seq<string>, fs: string -> FsResponse)
    ensures |NativeLoads(paths, fs)| <= |paths|
  {
    if paths != [] {
      var init := paths[..|paths| - 1];
      NativeLoadsSize(init, fs);
      assert paths == init + [paths[|paths| - 1]];
      assert NativeLoads(paths, fs).Keys == NativeLoads(init, fs).Keys + {paths[|paths| - 1]};
    }
  }

  /** Writing a resolved outcome to a seeded path keeps the key set and never lowers the resolved count. */
  lemma ResolvingWriteKeepsProgress(m: Loaded, path: string, o: Outcome)
    requires path in m && Resolved(o)
    ensures m[path := o].Keys == m.Keys
    ensures ResolvedCount(m) <= ResolvedCount(m[path := o])
  {
    SubsetCard(ResolvedKeys(m), ResolvedKeys(m[path := o]));
  }

  /** Applying fetch results in order, the way several `load_file`s write the shared map. */
  function ApplyWrites(m: Loaded, writes: seq<(string, Outcome)>): Loaded
    decreases |writes|
  {
    if writes == [] then m else ApplyWrites(m[writes[0].0 := writes[0].1], writes[1..])
  }

  /** Successive polls never see progress go backwards while fetches write resolved outcomes to seeded paths. */
  lemma {:induction false} ProgressNeverDecreases(m: Loaded, writes: seq<(string, Outcome)>)
    requires forall i :: 0 <= i < |writes| ==> writes[i].0 in m && Resolved(writes[i].1)
    ensures ApplyWrites(m, writes).Keys == m.Keys
    ensures ResolvedCount(m) <= ResolvedCount(ApplyWrites(m, writes))
  {
    if writes != [] {
      var m' := m[writes[0].0 := writes[0].1];
      ResolvingWriteKeepsProgress(m, writes[0].0, writes[0].1);
      assert forall i :: 0 <= i < |writes[1..]| ==> writes[1..][i] == writes[i + 1];
      ProgressNeverDecreases(m', writes[1..]);
    }
  }

  /** An empty batch completes on its first successful poll, reporting 0 of 0. */
  lemma EmptyBatchCompletesAtOnce(fs: string -> FsResponse)
    ensures NativeLoads([], fs) == map[]
    ensures Decide(NativeLoads([], fs), true) == Done(0, 0)
  {
    assert ResolvedKeys(map[]) == {};
  }

  /**
   * Natively the map is final once the seeding loop returns, so a poll completes
   * exactly when no requested file read as zero bytes; otherwise every later poll
   * reports Loading as well and `on_done` is never called.
   */
  lemma NativeCompletion(paths: seq<string>, fs: string -> FsResponse)
    ensures Decide(NativeLoads(paths, fs), true).Done? <==>
            forall p :: p in paths ==> fs(p) != ReadAll([])
  {
    var m := NativeLoads(paths, fs);
    if forall p :: p in paths ==> fs(p) != ReadAll([]) {
      forall k | k in m ensures Resolved(m[k]) {
        assert fs(k) != ReadAll([]);
      }
    } else {
      var p :| p in paths && fs(p) == ReadAll([]);
      assert !Resolved(m[p]);
    }
  }

  /** A requested zero-length file is taken for the placeholder: the batch stays Loading. */
  lemma ZeroLengthFileStalls(paths: seq<string>, fs: string -> FsResponse, p: string)
    requires p in paths && fs(p) == ReadAll([])
    ensures Decide(NativeLoads(paths, fs), true).Loading?
  {
    NativeCompletion(paths, fs);
  }

  /** After loading, lookup answers exactly what the file system answered, and "not loaded" for anything not requested. */
  lemma GetAfterLoad(paths: seq<string>, fs: string -> FsResponse, p: string)
    ensures p !in paths ==> Get(NativeLoads(paths, fs), p) == Err(FailedToLoad(NotLoadedPrefix + p))
    ensures p in paths && fs(p).ReadAll? ==> Get(NativeLoads(paths, fs), p) == Ok(fs(p).contents)
    ensures p in paths && !fs(p).ReadAll? ==> Get(NativeLoads(paths, fs), p) == Err(FailedToLoad(CouldNotLoadPrefix + p))
  {
  }
}
