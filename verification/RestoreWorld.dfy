/** Everything outside the runner: a clock, the external systems, and the directory of
    staged files (internal/restore/s3.go, internal/restore/dump.go). */
module RestoreWorld {
  import opened Wrappers
  import opened RestoreDomain

  /** How fetching the object can go, call by call. */
  datatype FetchAnswer = FetchAnswer(
    getErr: Option<int>, temp: Option<string>, chmodOk: bool, copyOk: bool, closeOk: bool, gzipOk: bool,
    transferred: int, contentLength: Option<int>, etag: string)

  /** What a call is answered: an error or not, a size for the size query, the course of a
      fetch, and whether the system refuses to remove a file. */
  datatype Answer = Answer(err: Option<int>, size: int, fetch: FetchAnswer, refuseRemoval: bool)

  /** The dump handed over: its size is the object's stated length if it states one, else
      what was transferred. */
  function Fetched(f: FetchAnswer): (d: Dump)
    ensures f.contentLength.Some? && f.contentLength.value >= 0 ==> d.size == f.contentLength.value
    ensures f.contentLength.None? || f.contentLength.value < 0 ==> d.size == f.transferred
    ensures d.etag == f.etag && (f.temp.Some? ==> d.path == f.temp.value)
  {
    Dump(if f.temp.Some? then f.temp.value else "", f.etag,
         if f.contentLength.Some? && f.contentLength.value >= 0 then f.contentLength.value else f.transferred)
  }

  /** A clock reading: the time, and how many calls had been made by then. */
  datatype Stamp = Stamp(time: nat, calls: nat)

  datatype Removal = Removed | NotExist | Refused(code: int)

  class World {
    /** Call number k is answered answers(k); reading number k advances the clock by ticks(k). */
    const answers: nat -> Answer
    const ticks: nat -> nat
    var readings: nat
    var now: nat
    ghost var stamps: seq<Stamp>
    var trace: seq<Call>
    var files: set<string>
    var removalRefused: bool

    constructor (answers: nat -> Answer, ticks: nat -> nat, start: nat, files: set<string>)
      ensures this.answers == answers && this.ticks == ticks && now == start && this.files == files
      ensures stamps == [] && trace == [] && !removalRefused
    {
      this.answers, this.ticks := answers, ticks;
      this.readings, this.now, this.stamps, this.trace, this.files := 0, start, [], [], files;
      this.removalRefused := false;
    }

    method Now() returns (t: nat)
      modifies this`readings, this`now, this`stamps
      ensures t == now >= old(now)
      ensures stamps == old(stamps) + [Stamp(t, |trace|)]
      ensures unchanged(this`trace, this`files, this`removalRefused)
    {
      now := now + ticks(readings);
      readings := readings + 1;
      t := now;
      stamps := stamps + [Stamp(t, |trace|)];
    }

    /** A call on the cluster, the database or the API. */
    method Perform(effect: Effect, detached: bool) returns (err: Option<Err>, size: int)
      modifies this`trace
      ensures trace == old(trace) + [Call(effect, detached, err)] && size == answers(|old(trace)|).size
      ensures err == if answers(|old(trace)|).err.Some? then Some(External(answers(|old(trace)|).err.value)) else None
    {
      var answer := answers(|trace|);
      err, size := if answer.err.Some? then Some(External(answer.err.value)) else None, answer.size;
      trace := trace + [Call(effect, detached, err)];
    }

    // ----- staged files

    method Remove(path: string, refuse: bool) returns (r: Removal)
      modifies this`files, this`removalRefused
      ensures r == Removed ==> path in old(files) && files == old(files) - {path}
      ensures r == NotExist ==> path !in files && files == old(files)
      ensures r.Refused? ==> files == old(files) && removalRefused
      ensures !r.Refused? ==> removalRefused == old(removalRefused)
    {
      if refuse {
        removalRefused := true;
        return Refused(0);
      }
      if path !in files {
        return NotExist;
      }
      files := files - {path};
      return Removed;
    }

    /** Exclusive creation: the file must not exist yet, and has a name. */
    method CreateTemp(name: Option<string>) returns (path: Option<string>)
      modifies this`files
      ensures path == if name.Some? && name.value != "" && name.value !in old(files) then name else None
      ensures files == if path.Some? then old(files) + {path.value} else old(files)
    {
      if name.None? || name.value == "" || name.value in files {
        return None;
      }
      files := files + {name.value};
      return name;
    }

    /** Fetches the object into a new file and validates it. On success the caller owns
        exactly that one new file; on failure none is left, unless removing it was refused. */
    method DownloadAndExtract() returns (dump: Option<Dump>, err: Option<Err>)
      modifies this`trace, this`files, this`removalRefused
      ensures trace == old(trace) + [Call(Fetch, false, err)]
      ensures dump.Some? <==> err.None?
      ensures var f := answers(|old(trace)|).fetch;
              err.None? <==> f.getErr.None? && f.temp.Some? && f.temp.value != "" && f.temp.value !in old(files)
                             && f.chmodOk && f.copyOk && f.closeOk && f.gzipOk
      ensures dump.Some? ==> dump.value == Fetched(answers(|old(trace)|).fetch)
      ensures dump.Some? ==> dump.value.path != "" && dump.value.path !in old(files)
                             && files == old(files) + {dump.value.path}
                             && removalRefused == old(removalRefused)
      ensures dump.None? && !removalRefused ==> files == old(files)
      ensures old(removalRefused) ==> removalRefused
    {
      var answer := answers(|trace|);
      var f := answer.fetch;
      dump := None;
      if f.getErr.Some? {
        err := Some(External(f.getErr.value));
        trace := trace + [Call(Fetch, false, err)];
        return;
      }
      var path := CreateTemp(f.temp);
      if path.None? {
        err := Some(External(1));
        trace := trace + [Call(Fetch, false, err)];
        return;
      }
      if !f.chmodOk {
        var _ := Remove(path.value, answer.refuseRemoval);
        err := Some(External(2));
      } else if !f.copyOk {
        var _ := Remove(path.value, answer.refuseRemoval);
        err := Some(External(3));
      } else if !f.closeOk {
        var _ := Remove(path.value, answer.refuseRemoval);
        err := Some(External(4));
      } else if !f.gzipOk {
        var _ := Remove(path.value, answer.refuseRemoval);
        err := Some(External(5));
      } else {
        err := None;
        var size := f.transferred;
        if f.contentLength.Some? && f.contentLength.value >= 0 {
          size := f.contentLength.value;
        }
        dump := Some(Dump(path.value, f.etag, size));
      }
      trace := trace + [Call(Fetch, false, err)];
    }

    /** Removes a staged file; one that is already gone counts as removed. */
    method RemoveStaged(dump: Dump) returns (err: Option<Err>)
      modifies this`trace, this`files, this`removalRefused
      ensures trace == old(trace) + [Call(RemoveDump, false, err)]
      ensures err.None? ==> (dump.path != "" ==> dump.path !in files)
                            && files == old(files) - (if dump.path == "" then {} else {dump.path})
                            && removalRefused == old(removalRefused)
      ensures err.Some? ==> files == old(files) && removalRefused && dump.path != ""
      ensures dump.path !in old(files) ==> files == old(files)
    {
      var answer := answers(|trace|);
      err := None;
      if dump.path != "" {
        var r := Remove(dump.path, answer.refuseRemoval);
        if r.Refused? {
          err := Some(External(r.code));
        }
      }
      trace := trace + [Call(RemoveDump, false, err)];
    }
  }
}
