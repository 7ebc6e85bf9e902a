/** Scaling a workload by read-modify-write against an API server that other writers use
    at the same time (internal/restore/k8sclient.go). */
module Cluster {
  import opened Wrappers
  import opened Budget
  import opened Nanoseconds

  datatype Kind = Deployment | StatefulSet
  datatype Key = Key(kind: Kind, name: string)

  /** A stored object: its version, desired and ready replicas, and everything else. */
  datatype Workload = Workload(version: nat, replicas: Option<int>, ready: int, rest: map<string, string>)

  /** A committed write, as the server's history records it. */
  datatype Write = Put(ours: bool, key: Key, obj: Workload) | Remove(key: Key)

  type Objects = map<Key, Workload>

  function Apply(objects: Objects, w: Write): Objects {
    match w
    case Put(_, key, obj) => objects[key := obj]
    case Remove(key) => objects - {key}
  }

  function Replay(log: seq<Write>): Objects {
    if log == [] then map[] else Apply(Replay(log[..|log| - 1]), log[|log| - 1])
  }

  /** Every committed object carries the revision of its own commit, so versions never recur. */
  ghost predicate Versioned(log: seq<Write>) {
    forall i :: 0 <= i < |log| && log[i].Put? ==> log[i].obj.version == i + 1
  }

  predicate OurWrite(w: Write) {
    w.Put? && w.ours
  }

  /** The object a name resolves to: the Deployment if there is one, else the StatefulSet. */
  function Target(objects: Objects, name: string): Option<Key> {
    if Key(Deployment, name) in objects then Some(Key(Deployment, name))
    else if Key(StatefulSet, name) in objects then Some(Key(StatefulSet, name))
    else None
  }

  /** One of our commits replaces the version directly before it and changes its desired
      replicas (and the version) only. */
  ghost predicate ReplicasOnly(log: seq<Write>, i: nat, name: string, replicas: int)
    requires i < |log|
  {
    OurWrite(log[i]) && log[i].key.name == name
    && var before := Replay(log[..i]);
       log[i].key in before && log[i].obj == before[log[i].key].(replicas := Some(replicas), version := i + 1)
  }

  function OurWrites(log: seq<Write>): nat {
    if log == [] then 0 else OurWrites(log[..|log| - 1]) + if OurWrite(log[|log| - 1]) then 1 else 0
  }

  lemma OurWritesStep(log: seq<Write>, w: Write)
    ensures OurWrites(log + [w]) == OurWrites(log) + if OurWrite(w) then 1 else 0
    ensures Replay(log + [w]) == Apply(Replay(log), w)
  {
    assert (log + [w])[..|log|] == log;
  }

  // ----- what a version identifies

  /** A stored object is the one committed at the revision it carries. */
  lemma {:induction false} Origin(log: seq<Write>, key: Key)
    requires Versioned(log) && key in Replay(log)
    ensures var obj := Replay(log)[key];
            1 <= obj.version <= |log| && log[obj.version - 1].Put? && log[obj.version - 1].key == key
              && log[obj.version - 1].obj == obj
  {
    var front, last := log[..|log| - 1], log[|log| - 1];
    if !(last.Put? && last.key == key) {
      Origin(front, key);
    }
  }

  /** An object with the same version at two moments is the same object: nothing was
      written to it in between that a later writer could lose. */
  lemma VersionIdentifies(early: seq<Write>, late: seq<Write>, key: Key)
    requires Versioned(late) && early <= late && key in Replay(early) && key in Replay(late)
    requires Replay(early)[key].version == Replay(late)[key].version
    ensures Replay(early)[key] == Replay(late)[key]
  {
    Origin(early, key);
    Origin(late, key);
  }

  /** The name resolves to the same object at every moment from history length `from` on. */
  ghost predicate TargetFixed(log: seq<Write>, from: nat, name: string, key: Key)
  {
    forall j :: from <= j <= |log| ==> Target(Replay(log[..j]), name) == Some(key)
  }

  lemma FixedAt(log: seq<Write>, from: nat, name: string, key: Key, mid: seq<Write>)
    requires TargetFixed(log, from, name, key) && mid <= log && |mid| >= from
    ensures Target(Replay(mid), name) == Some(key) && TargetFixed(mid, from, name, key)
  {
    assert log[..|mid|] == mid;
    forall j | from <= j <= |mid|
      ensures Target(Replay(mid[..j]), name) == Some(key)
    {
      assert mid[..j] == log[..j];
    }
  }

  // ----- no update is lost

  function Erase(log: seq<Write>): seq<Write> {
    if log == [] then [] else Erase(log[..|log| - 1]) + if OurWrite(log[|log| - 1]) then [] else [log[|log| - 1]]
  }

  function ReplicasOf(w: Write): int {
    if w.Put? && w.obj.replicas.Some? then w.obj.replicas.value else 0
  }

  /** Every commit of ours rewrites the desired replicas of the version before it. */
  ghost predicate OursAreReplicasOnly(log: seq<Write>) {
    forall i :: 0 <= i < |log| && OurWrite(log[i]) ==> ReplicasOnly(log, i, log[i].key.name, ReplicasOf(log[i]))
  }

  /** Equal but for desired replicas and version; and where someone else committed the
      object last, for the version only. */
  predicate Agree(log: seq<Write>, with: Workload, without: Workload) {
    with.rest == without.rest && with.ready == without.ready
    && (1 <= with.version <= |log| && !OurWrite(log[with.version - 1]) ==> with.replicas == without.replicas)
  }

  lemma StillReplicasOnly(early: seq<Write>, log: seq<Write>, name: string, replicas: int)
    requires early <= log
    requires forall i :: |early| <= i < |log| && OurWrite(log[i]) ==> ReplicasOnly(log, i, name, replicas)
    ensures OursAreReplicasOnly(early) ==> OursAreReplicasOnly(log)
  {
    if OursAreReplicasOnly(early) {
      forall i | 0 <= i < |log| && OurWrite(log[i])
        ensures ReplicasOnly(log, i, log[i].key.name, ReplicasOf(log[i]))
      {
        if i < |early| {
          assert early[..i] == log[..i];
          assert ReplicasOnly(early, i, early[i].key.name, ReplicasOf(early[i]));
        } else {
          assert ReplicasOnly(log, i, name, replicas);
        }
      }
    }
  }

  lemma FrontIsReplicasOnly(log: seq<Write>)
    requires log != [] && Versioned(log) && OursAreReplicasOnly(log)
    ensures var front := log[..|log| - 1]; Versioned(front) && OursAreReplicasOnly(front)
  {
    var front := log[..|log| - 1];
    forall i | 0 <= i < |front| && OurWrite(front[i])
      ensures ReplicasOnly(front, i, front[i].key.name, ReplicasOf(front[i]))
    {
      assert front[..i] == log[..i];
      assert ReplicasOnly(log, i, log[i].key.name, ReplicasOf(log[i]));
    }
  }

  lemma OwnStep(log: seq<Write>, before: Objects, erased: Objects)
    requires log != [] && Versioned(log) && OursAreReplicasOnly(log) && OurWrite(log[|log| - 1])
    requires before == Replay(log[..|log| - 1]) && before.Keys == erased.Keys
    requires forall k :: k in before ==> Agree(log, before[k], erased[k])
    ensures Replay(log).Keys == erased.Keys
    ensures forall k :: k in Replay(log) ==> Agree(log, Replay(log)[k], erased[k])
  {
    var n := |log| - 1;
    assert ReplicasOnly(log, n, log[n].key.name, ReplicasOf(log[n]));
    assert Agree(log, before[log[n].key], erased[log[n].key]);
  }

  /** Erasing our commits from the history changes nothing but desired replicas (and
      versions): every other writer's update survives as if we had never written. Where
      someone else wrote last, the desired replicas are theirs too. */
  lemma {:induction false} NoUpdateLost(log: seq<Write>)
    requires Versioned(log) && OursAreReplicasOnly(log)
    ensures Replay(log).Keys == Replay(Erase(log)).Keys
    ensures forall k :: k in Replay(log) ==> Agree(log, Replay(log)[k], Replay(Erase(log))[k])
  {
    if log != [] {
      var front, last := log[..|log| - 1], log[|log| - 1];
      FrontIsReplicasOnly(log);
      NoUpdateLost(front);
      var before, erased := Replay(front), Replay(Erase(front));
      forall k | k in before
        ensures Agree(log, before[k], erased[k])
      {
        Origin(front, k);
        assert Agree(front, before[k], erased[k]);
      }
      if OurWrite(last) {
        assert Erase(log) == Erase(front);
        OwnStep(log, before, erased);
      } else {
        assert Erase(log) == Erase(front) + [last];
        OurWritesStep(Erase(front), last);
      }
    }
  }

  // ----- the server and its other users

  /** What another writer commits: an arbitrary object, or a deletion. */
  datatype Foreign =
    | ForeignPut(key: Key, replicas: Option<int>, ready: int, rest: map<string, string>)
    | ForeignRemove(key: Key)

  /** What can go wrong with a call besides the server's own answer: it is refused without
      effect, or it takes effect and its reply is lost. */
  datatype Fault = NoFault | CallRefused(code: int) | ReplyLost(code: int)

  /** Everything that happens around one of our calls: other writers' commits before the
      server handles it and between handling it and our seeing the reply, a fault, and the
      time it takes; and, if a wait follows the call, how late it ends and which case its
      select takes when both are ready. */
  datatype Gap = Gap(before: seq<Foreign>, after: seq<Foreign>, fault: Fault, delay: nat, lag: nat, tickWins: bool)

  /** What one of our operations adds to the history: other writers' commits, and at most one
      of ours, at position `at`. */
  ghost predicate OneCommit(early: seq<Write>, log: seq<Write>, committed: bool, at: nat) {
    && early <= log
    && (committed ==> |early| <= at < |log| && OurWrite(log[at]))
    && (forall i :: |early| <= i < |log| && !(committed && i == at) ==> !OurWrite(log[i]))
  }

  datatype ApiError = NotFound | Conflict | Other(code: int)
  datatype ScaleError = Api(error: ApiError) | NoSuchWorkload

  /** At the moment of the commit the object has the desired replicas. */
  ghost predicate InForce(log: seq<Write>, at: nat, replicas: int)
    requires at < |log| && log[at].Put?
  {
    var objects := Replay(log[..at + 1]);
    log[at].key in objects && objects[log[at].key].replicas == Some(replicas)
  }

  lemma CommitInForce(log: seq<Write>, at: nat, name: string, replicas: int)
    requires at < |log| && ReplicasOnly(log, at, name, replicas)
    ensures InForce(log, at, replicas)
  {
    OurWritesStep(log[..at], log[at]);
    assert log[..at + 1] == log[..at] + [log[at]];
  }

  /** At that moment a workload of that name had so many ready replicas. */
  ghost predicate IsReady(seen: seq<Write>, name: string, key: Key, ready: int) {
    key.name == name && key in Replay(seen) && Replay(seen)[key].ready == ready
  }

  // ----- what a failure means

  /** Some call numbered from..to was refused or lost its reply, with this code. */
  ghost predicate Faulty(gaps: nat -> Gap, from: nat, to: nat, code: int) {
    exists c: nat :: from <= c < to && (gaps(c).fault == CallRefused(code) || gaps(c).fault == ReplyLost(code))
  }

  /** At some moment from history length `from` on the object was not there. */
  ghost predicate AbsentAt(log: seq<Write>, from: nat, key: Key) {
    exists j: nat :: from <= j <= |log| && key !in Replay(log[..j])
  }

  /** At some moment from history length `from` on the object was there. */
  ghost predicate PresentAt(log: seq<Write>, from: nat, key: Key) {
    exists j: nat :: from <= j <= |log| && key in Replay(log[..j])
  }

  /** The history's lengths when a workload was read and when its rewrite was handled. */
  datatype Window = Window(read: nat, wrote: nat)

  /** In between, someone else wrote a workload of that name. */
  ghost predicate Overtaken(log: seq<Write>, name: string, w: Window) {
    && w.read <= w.wrote <= |log|
    && exists p: nat :: w.read <= p < w.wrote && log[p].Put? && !log[p].ours && log[p].key.name == name
  }

  /** One attempt after the other was overtaken, from history length `from` on. */
  ghost predicate AllOvertaken(log: seq<Write>, from: nat, name: string, ws: seq<Window>) {
    && (forall a: nat :: a < |ws| ==> from <= ws[a].read && Overtaken(log, name, ws[a]))
    && (forall a: nat, b: nat :: a < b < |ws| ==> ws[a].wrote <= ws[b].read)
  }

  lemma MomentsKept(early: seq<Write>, log: seq<Write>, from: nat, later: nat, key: Key)
    requires early <= log && from <= later
    ensures AbsentAt(early, later, key) ==> AbsentAt(log, from, key)
    ensures PresentAt(early, later, key) ==> PresentAt(log, from, key)
  {
    assert forall j: nat :: j <= |early| ==> early[..j] == log[..j];
  }

  lemma AbsentNow(log: seq<Write>, from: nat, seen: seq<Write>, key: Key)
    requires seen <= log && from <= |seen|
    ensures key !in Replay(seen) ==> AbsentAt(log, from, key)
    ensures key in Replay(seen) ==> PresentAt(log, from, key)
  {
    assert log[..|seen|] == seen;
  }

  /** What was not written to is as it was. */
  lemma {:induction false} Unwritten(early: seq<Write>, log: seq<Write>, key: Key)
    requires early <= log && forall i :: |early| <= i < |log| ==> log[i].key != key
    ensures (key in Replay(early) <==> key in Replay(log))
    ensures key in Replay(early) ==> Replay(early)[key] == Replay(log)[key]
  {
    if |early| < |log| {
      Unwritten(early, log[..|log| - 1], key);
    } else {
      assert early == log;
    }
  }

  /** Nothing is written to a stored object after the commit it carries. */
  lemma {:induction false} LastWrite(log: seq<Write>, key: Key)
    requires Versioned(log) && key in Replay(log)
    ensures forall i :: Replay(log)[key].version <= i < |log| ==> log[i].key != key
  {
    var front, last := log[..|log| - 1], log[|log| - 1];
    if last.key != key {
      LastWrite(front, key);
    }
  }

  /** A version that is no longer the one read was committed in between. */
  lemma VersionMoved(read: seq<Write>, log: seq<Write>, key: Key)
    requires Versioned(log) && read <= log && key in Replay(read) && key in Replay(log)
    requires Replay(read)[key].version != Replay(log)[key].version
    ensures exists p: nat :: |read| <= p < |log| && log[p].Put? && log[p].key == key
  {
    Origin(log, key);
    var p := Replay(log)[key].version - 1;
    if p < |read| {
      LastWrite(log, key);
      Unwritten(read, log, key);
      assert false;
    }
  }

  lemma ReadIsOld(seen: seq<Write>, handled: seq<Write>, log: seq<Write>, key: Key)
    requires Versioned(log) && seen <= handled <= log && OneCommit(seen, log, false, 0)
    requires key in Replay(seen) && key in Replay(handled)
    requires Replay(seen)[key].version != Replay(handled)[key].version
    ensures Overtaken(log, key.name, Window(|seen|, |handled|))
  {
    VersionMoved(seen, handled, key);
    var p: nat :| |seen| <= p < |handled| && handled[p].Put? && handled[p].key == key;
    assert log[p] == handled[p] && !OurWrite(log[p]);
  }

  /** If the name keeps resolving to one object, no moment contradicts another. */
  lemma FixedNeverAbsent(log: seq<Write>, from: nat, name: string, key: Key)
    requires TargetFixed(log, from, name, key)
    ensures !(AbsentAt(log, from, Key(Deployment, name)) && PresentAt(log, from, Key(Deployment, name)))
    ensures !(AbsentAt(log, from, Key(Deployment, name)) && AbsentAt(log, from, Key(StatefulSet, name)))
  {
  }

  /** What each error other than a conflict means: a fault of a call of this operation, or the
      workload missing, at one moment or another of it, where it was looked for. */
  ghost predicate FailureExplained(gaps: nat -> Gap, c0: nat, c1: nat, log: seq<Write>, from: nat,
                                   name: string, err: ScaleError)
  {
    match err
    case Api(Other(code)) => Faulty(gaps, c0, c1, code)
    case Api(NotFound) =>
      AbsentAt(log, from, Key(Deployment, name))
      && (PresentAt(log, from, Key(Deployment, name)) || AbsentAt(log, from, Key(StatefulSet, name)))
    case Api(Conflict) => true
    case NoSuchWorkload =>
      AbsentAt(log, from, Key(Deployment, name)) && AbsentAt(log, from, Key(StatefulSet, name))
  }

  lemma ExplainedLater(gaps: nat -> Gap, c0: nat, c: nat, c1: nat, log: seq<Write>, from: nat, later: nat,
                       name: string, err: ScaleError)
    requires c0 <= c && from <= later && FailureExplained(gaps, c, c1, log, later, name, err)
    ensures FailureExplained(gaps, c0, c1, log, from, name, err)
  {
    MomentsKept(log, log, from, later, Key(Deployment, name));
    MomentsKept(log, log, from, later, Key(StatefulSet, name));
  }

  /** No call numbered c0..c1 fails, and the name keeps resolving to one object. */
  ghost predicate Undisturbed(gaps: nat -> Gap, c0: nat, c1: nat, log: seq<Write>, from: nat, name: string) {
    && (forall c: nat :: c0 <= c < c1 ==> gaps(c).fault == NoFault)
    && exists key :: TargetFixed(log, from, name, key)
  }

  /** Without faults and with the name resolving to one object, only a conflict can fail. */
  lemma NotWithoutCause(gaps: nat -> Gap, c0: nat, c1: nat, log: seq<Write>, from: nat, name: string, err: ScaleError)
    requires FailureExplained(gaps, c0, c1, log, from, name, err) && err != Api(Conflict)
    ensures !Undisturbed(gaps, c0, c1, log, from, name)
  {
    if exists key :: TargetFixed(log, from, name, key) {
      var key :| TargetFixed(log, from, name, key);
      FixedNeverAbsent(log, from, name, key);
    }
  }

  /** A lookup of a workload that found none, by a fault of one of its calls or because none
      was there where it was looked for. */
  ghost predicate Unanswered(gaps: nat -> Gap, c0: nat, c1: nat, log: seq<Write>, from: nat, name: string) {
    || (exists code :: Faulty(gaps, c0, c1, code))
    || (AbsentAt(log, from, Key(Deployment, name)) && AbsentAt(log, from, Key(StatefulSet, name)))
  }

  lemma FaultUnanswered(gaps: nat -> Gap, c0: nat, c: nat, c1: nat, log: seq<Write>, from: nat, name: string, code: int)
    requires c0 <= c && Faulty(gaps, c, c1, code)
    ensures Unanswered(gaps, c0, c1, log, from, name)
  {
    assert Faulty(gaps, c0, c1, code);
  }

  // ----- polling

  /** The polling period: two seconds. */
  const POLL_INTERVAL: nat := 2 * SECOND

  /** One poll: what it was told, if anything, of which object at which moment; its calls,
      numbered from..to; the length of the history when it began; and when it began and ended. */
  datatype Poll = Poll(ready: Option<int>, seen: nat, key: Key, from: nat, to: nat, early: nat, began: nat, ended: nat)

  /** The poll is true: it was told the ready replicas of a workload of that name at a moment
      of the poll, or could not be told. */
  ghost predicate PollHolds(gaps: nat -> Gap, c0: nat, from: nat, log: seq<Write>, name: string, p: Poll) {
    && c0 <= p.from < p.to && from <= p.early <= p.seen <= |log|
    && match p.ready
       case Some(ready) =>
         IsReady(log[..p.seen], name, p.key, ready)
         && (p.key.kind.StatefulSet? ==> AbsentAt(log, p.early, Key(Deployment, name)))
       case None => Unanswered(gaps, p.from, p.to, log, p.early, name)
  }

  /** When a wait is over at the latest: at the timeout, or when the caller ends. */
  function DoneAt(start: nat, timeout: nat, cancelAt: Option<nat>): nat {
    if cancelAt.Some? && cancelAt.value < start + timeout then cancelAt.value else start + timeout
  }

  /** The tick after poll number i: the i-th, or at once if that has passed; but not after the end. */
  function NextTick(start: nat, i: nat, ended: nat, doneAt: nat): nat {
    var due := start + i * POLL_INTERVAL;
    var tick := if due < ended then ended else due;
    if tick <= doneAt then tick else doneAt
  }

  ghost predicate AllHold(gaps: nat -> Gap, c0: nat, from: nat, log: seq<Write>, name: string, told: seq<Poll>) {
    forall i :: 0 <= i < |told| ==> PollHolds(gaps, c0, from, log, name, told[i])
  }

  lemma PollsKept(gaps: nat -> Gap, c0: nat, from: nat, early: seq<Write>, log: seq<Write>,
                  name: string, told: seq<Poll>)
    requires early <= log && AllHold(gaps, c0, from, early, name, told)
    ensures AllHold(gaps, c0, from, log, name, told)
  {
    forall i | 0 <= i < |told|
      ensures PollHolds(gaps, c0, from, log, name, told[i])
    {
      var p := told[i];
      assert early[..p.seen] == log[..p.seen];
      MomentsKept(early, log, p.early, p.early, Key(Deployment, name));
      MomentsKept(early, log, p.early, p.early, Key(StatefulSet, name));
    }
  }

  /** The instant is the tick after poll number i, or late by the lag of that wait. */
  predicate Follows(gaps: nat -> Gap, start: nat, doneAt: nat, i: nat, p: Poll, at: nat) {
    at == NextTick(start, i + 1, p.ended, doneAt) + gaps(p.to).lag
  }

  /** Each poll but the last was told something else than wanted and ended in time, and each but
      the first began at the tick after the one before, or late by the lag of that wait. */
  ghost predicate Paced(gaps: nat -> Gap, want: int, start: nat, doneAt: nat, told: seq<Poll>) {
    && (forall i :: 0 <= i < |told| - 1 ==> told[i].ready != Some(want) && told[i].ended < doneAt)
    && (forall i: nat :: i < |told| - 1 ==> Follows(gaps, start, doneAt, i, told[i], told[i + 1].began))
  }

  /** The polls so far, each true and each at its time. */
  ghost predicate Polled(gaps: nat -> Gap, c0: nat, from: nat, log: seq<Write>, name: string,
                         want: int, start: nat, doneAt: nat, told: seq<Poll>)
  {
    AllHold(gaps, c0, from, log, name, told) && Paced(gaps, want, start, doneAt, told)
  }

  /** The next poll begins now. */
  ghost predicate NextIs(gaps: nat -> Gap, want: int, start: nat, doneAt: nat, told: seq<Poll>, calls: nat, now: nat) {
    told != [] ==>
      var last := told[|told| - 1];
      last.ready != Some(want) && last.to == calls && last.ended < doneAt
      && Follows(gaps, start, doneAt, |told| - 1, last, now)
  }

  lemma HoldAdded(gaps: nat -> Gap, c0: nat, from: nat, early: seq<Write>, log: seq<Write>, name: string,
                  told: seq<Poll>, poll: Poll)
    requires early <= log && c0 <= poll.from && from <= |early|
    requires AllHold(gaps, c0, from, early, name, told) && PollHolds(gaps, poll.from, |early|, log, name, poll)
    ensures AllHold(gaps, c0, from, log, name, told + [poll])
  {
    PollsKept(gaps, c0, from, early, log, name, told);
    var all := told + [poll];
    forall i | 0 <= i < |all|
      ensures PollHolds(gaps, c0, from, log, name, all[i])
    {
      assert i < |told| ==> all[i] == told[i];
    }
  }

  lemma PaceAdded(gaps: nat -> Gap, want: int, start: nat, doneAt: nat, told: seq<Poll>, poll: Poll)
    requires Paced(gaps, want, start, doneAt, told)
    requires NextIs(gaps, want, start, doneAt, told, poll.from, poll.began)
    ensures Paced(gaps, want, start, doneAt, told + [poll])
  {
    var all := told + [poll];
    forall i: nat | i < |all| - 1
      ensures all[i].ready != Some(want) && all[i].ended < doneAt
      ensures Follows(gaps, start, doneAt, i, all[i], all[i + 1].began)
    {
      if i < |told| - 1 {
        assert Follows(gaps, start, doneAt, i, told[i], told[i + 1].began);
      }
    }
  }

  lemma PollAdded(gaps: nat -> Gap, c0: nat, from: nat, early: seq<Write>, log: seq<Write>, name: string,
                  want: int, start: nat, doneAt: nat, told: seq<Poll>, poll: Poll)
    requires early <= log && c0 <= poll.from && from <= |early|
    requires Polled(gaps, c0, from, early, name, want, start, doneAt, told)
    requires NextIs(gaps, want, start, doneAt, told, poll.from, poll.began)
    requires PollHolds(gaps, poll.from, |early|, log, name, poll)
    ensures Polled(gaps, c0, from, log, name, want, start, doneAt, told + [poll])
  {
    HoldAdded(gaps, c0, from, early, log, name, told, poll);
    PaceAdded(gaps, want, start, doneAt, told, poll);
  }

  /** A poll that ended in time was one of those the timeout allows. */
  lemma InTime(polls: nat, start: nat, now: nat, doneAt: nat, timeout: nat)
    requires polls > 0 && start + (polls - 1) * POLL_INTERVAL <= now < doneAt <= start + timeout
    ensures polls <= CeilDiv(timeout, POLL_INTERVAL)
  {
    CeilDivExceeds(polls - 1, timeout, POLL_INTERVAL);
  }

  lemma OvertakenLater(early: seq<Write>, log: seq<Write>, from: nat, name: string, ws: seq<Window>)
    requires early <= log && AllOvertaken(early, from, name, ws)
    ensures AllOvertaken(log, from, name, ws)
  {
    forall a: nat | a < |ws|
      ensures Overtaken(log, name, ws[a])
    {
      var p: nat :| ws[a].read <= p < ws[a].wrote && early[p].Put? && !early[p].ours && early[p].key.name == name;
      assert log[p] == early[p];
    }
  }

  lemma FixedLater(log: seq<Write>, from: nat, later: nat, name: string)
    requires from <= later
    ensures forall key :: TargetFixed(log, from, name, key) ==> TargetFixed(log, later, name, key)
  {
  }

  function Wrap(e: Option<ApiError>): Option<ScaleError> {
    if e.Some? then Some(Api(e.value)) else None
  }

  /** A commit that passed the version check rewrites exactly the object that was read. */
  lemma CommittedFromRead(read: seq<Write>, log: seq<Write>, at: nat, key: Key, replicas: int, found: Workload)
    requires Versioned(log) && read <= log && |read| <= at < |log| && key in Replay(read) && Replay(read)[key] == found
    requires log[at] == Put(true, key, found.(replicas := Some(replicas), version := at + 1))
    requires key in Replay(log[..at]) && Replay(log[..at])[key].version == found.version
    ensures ReplicasOnly(log, at, key.name, replicas)
  {
    VersionIdentifies(read, log[..at], key);
  }

  /** If the name's target is fixed, the target's kind follows from what one read saw. */
  lemma FixedKinds(log: seq<Write>, from: nat, name: string, mid: seq<Write>)
    requires mid <= log && |mid| >= from
    ensures forall key :: TargetFixed(log, from, name, key) ==>
            Target(Replay(mid), name) == Some(key) && Target(Replay(log), name) == Some(key)
  {
    forall key | TargetFixed(log, from, name, key)
      ensures Target(Replay(mid), name) == Some(key) && Target(Replay(log), name) == Some(key)
    {
      FixedAt(log, from, name, key, mid);
      FixedAt(log, from, name, key, log);
    }
  }

  /** What one attempt says of itself holds of the whole call so far. */
  lemma AttemptEnds(gaps: nat -> Gap, c0: nat, c: nat, c1: nat, early: seq<Write>, before: seq<Write>, log: seq<Write>,
                    name: string, replicas: int, committed: bool, at: nat, err: Option<ScaleError>)
    requires c0 <= c && OneCommit(early, before, false, 0) && OneCommit(before, log, committed, at)
    requires committed ==> ReplicasOnly(log, at, name, replicas)
    requires committed ==> forall key :: TargetFixed(log, |before|, name, key) ==> log[at].key == key
    requires committed && log[at].key.kind.StatefulSet? ==> AbsentAt(log, |before|, Key(Deployment, name))
    requires err.Some? ==> FailureExplained(gaps, c, c1, log, |before|, name, err.value)
    ensures OneCommit(early, log, committed, at)
    ensures OursAreReplicasOnly(early) ==> OursAreReplicasOnly(log)
    ensures committed ==> InForce(log, at, replicas)
    ensures committed ==> forall key :: TargetFixed(log, |early|, name, key) ==> log[at].key == key
    ensures committed && log[at].key.kind.StatefulSet? ==> AbsentAt(log, |early|, Key(Deployment, name))
    ensures err.Some? ==> FailureExplained(gaps, c0, c1, log, |early|, name, err.value)
    ensures Undisturbed(gaps, c0, c1, log, |early|, name) ==> err.None? || err == Some(Api(Conflict))
  {
    FixedLater(log, |early|, |before|, name);
    MomentsKept(log, log, |early|, |before|, Key(Deployment, name));
    StillReplicasOnly(early, log, name, replicas);
    if committed {
      CommitInForce(log, at, name, replicas);
    }
    if err.Some? {
      ExplainedLater(gaps, c0, c, c1, log, |early|, |before|, name, err.value);
      if err != Some(Api(Conflict)) {
        NotWithoutCause(gaps, c0, c1, log, |early|, name, err.value);
      }
    }
  }

  class Server {
    const gaps: nat -> Gap
    var calls: nat
    var now: nat
    var objects: Objects
    ghost var log: seq<Write>
    var revision: nat

    ghost predicate Valid()
      reads this
    {
      revision == |log| && Versioned(log) && objects == Replay(log)
    }

    /** An empty server. */
    constructor (gaps: nat -> Gap)
      ensures Valid() && log == [] && this.gaps == gaps
    {
      this.gaps := gaps;
      calls, now, objects, log, revision := 0, 0, map[], [], 0;
    }

    /** Commits happen one at a time; the history only grows. */
    method Commit(w: Write)
      requires Valid() && (w.Put? ==> w.obj.version == revision + 1)
      modifies this`objects, this`log, this`revision
      ensures Valid() && log == old(log) + [w] && objects == Apply(old(objects), w)
    {
      OurWritesStep(log, w);
      objects := Apply(objects, w);
      revision := revision + 1;
      log := log + [w];
    }

    method OthersWrite(writes: seq<Foreign>)
      requires Valid()
      modifies this`objects, this`log, this`revision
      ensures Valid() && old(log) <= log && OurWrites(log) == OurWrites(old(log))
      ensures forall i :: |old(log)| <= i < |log| ==> !OurWrite(log[i])
    {
      for i := 0 to |writes|
        invariant Valid() && old(log) <= log && OurWrites(log) == OurWrites(old(log))
        invariant forall i :: |old(log)| <= i < |log| ==> !OurWrite(log[i])
      {
        var w := match writes[i]
          case ForeignPut(key, replicas, ready, rest) => Put(false, key, Workload(revision + 1, replicas, ready, rest))
          case ForeignRemove(key) => Remove(key);
        OurWritesStep(log, w);
        Commit(w);
      }
    }

    /** Other writers act, then the call reaches the server. */
    method NextCall() returns (fault: Fault)
      requires Valid()
      modifies this
      ensures Valid() && OneCommit(old(log), log, false, 0) && OurWrites(log) == OurWrites(old(log))
      ensures now >= old(now) && calls == old(calls) + 1 && fault == gaps(old(calls)).fault
    {
      var gap := gaps(calls);
      calls := calls + 1;
      now := now + gap.delay;
      OthersWrite(gap.before);
      fault := gap.fault;
    }

    /** The call has been handled; other writers act again before its reply arrives. */
    method Reply()
      requires Valid() && calls > 0
      modifies this`objects, this`log, this`revision
      ensures Valid() && OneCommit(old(log), log, false, 0) && OurWrites(log) == OurWrites(old(log))
    {
      OthersWrite(gaps(calls - 1).after);
    }

    /** A read answers with the object as it was at the moment the server handled it. */
    method Get(key: Key) returns (obj: Option<Workload>, err: Option<ApiError>, ghost seen: seq<Write>)
      requires Valid()
      modifies this
      ensures Valid() && OneCommit(old(log), log, false, 0) && OurWrites(log) == OurWrites(old(log)) && now >= old(now)
      ensures old(log) <= seen <= log && calls == old(calls) + 1
      ensures err != Some(Conflict)
      ensures err.Some? && err.value.Other? ==> Faulty(gaps, old(calls), calls, err.value.code)
      ensures err.None? ==> key in Replay(seen) && obj == Some(Replay(seen)[key])
      ensures err == Some(NotFound) ==> key !in Replay(seen)
    {
      var fault := NextCall();
      seen := log;
      obj, err := None, None;
      if fault != NoFault {
        err := Some(Other(fault.code));
      } else if key !in objects {
        err := Some(NotFound);
      } else {
        obj := Some(objects[key]);
      }
      Reply();
    }

    /** The server's optimistic check: it commits only over the version the caller read. */
    method CheckAndCommit(key: Key, obj: Workload) returns (err: Option<ApiError>)
      requires Valid()
      modifies this`objects, this`log, this`revision
      ensures Valid()
      ensures err.None? ==> log == old(log) + [Put(true, key, obj.(version := |old(log)| + 1))]
                            && key in Replay(old(log)) && Replay(old(log))[key].version == obj.version
      ensures err.Some? ==> log == old(log) && (err == Some(Conflict) || err == Some(NotFound))
      ensures err == Some(NotFound) ==> key !in Replay(log)
      ensures err == Some(Conflict) ==> key in Replay(log) && Replay(log)[key].version != obj.version
      ensures OurWrites(log) == OurWrites(old(log)) + if err.None? then 1 else 0
    {
      if key !in objects {
        return Some(NotFound);
      }
      if objects[key].version != obj.version {
        return Some(Conflict);
      }
      OurWritesStep(log, Put(true, key, obj.(version := revision + 1)));
      Commit(Put(true, key, obj.(version := revision + 1)));
      return None;
    }

    /** An optimistic update, as its caller sees it. */
    method Update(key: Key, obj: Workload)
      returns (err: Option<ApiError>, ghost committed: bool, ghost at: nat, ghost handled: seq<Write>)
      requires Valid()
      modifies this
      ensures Valid() && OneCommit(old(log), log, committed, at) && now >= old(now)
      ensures OurWrites(log) == OurWrites(old(log)) + if committed then 1 else 0
      ensures committed ==> log[at] == Put(true, key, obj.(version := at + 1))
                            && key in Replay(log[..at]) && Replay(log[..at])[key].version == obj.version
      ensures err.None? ==> committed
      ensures err == Some(Conflict) || err == Some(NotFound) ==> !committed
      ensures calls == old(calls) + 1 && old(log) <= handled <= log
      ensures err.Some? && err.value.Other? ==> Faulty(gaps, old(calls), calls, err.value.code)
      ensures err == Some(NotFound) ==> key !in Replay(handled)
      ensures err == Some(Conflict) ==> key in Replay(handled) && Replay(handled)[key].version != obj.version
    {
      var fault := NextCall();
      ghost var before := log;
      committed, at := false, |log|;
      if fault.CallRefused? {
        err := Some(Other(fault.code));
      } else {
        err := CheckAndCommit(key, obj);
        committed := err.None?;
      }
      handled := log;
      Reply();
      assert committed ==> log[..at] == before;
      if fault.ReplyLost? {
        // a conflict or not-found answer whose reply is lost is also seen as this error
        err := Some(Other(fault.code));
      }
    }

    // ----- the client

    /** Writes the object just read back with the desired replicas. */
    method WriteBack(key: Key, found: Workload, replicas: int, ghost seen: seq<Write>)
      returns (err: Option<ApiError>, ghost committed: bool, ghost at: nat, ghost w: Window)
      requires Valid() && OneCommit(seen, log, false, 0) && key in Replay(seen) && Replay(seen)[key] == found
      modifies this
      ensures Valid() && OneCommit(old(log), log, committed, at) && now >= old(now)
      ensures OurWrites(log) == OurWrites(old(log)) + if committed then 1 else 0
      ensures committed ==> log[at].key == key && ReplicasOnly(log, at, key.name, replicas)
      ensures err.None? ==> committed
      ensures err == Some(Conflict) || err == Some(NotFound) ==> !committed
      ensures calls == old(calls) + 1
      ensures err.Some? && err.value.Other? ==> Faulty(gaps, old(calls), calls, err.value.code)
      ensures err == Some(NotFound) ==> AbsentAt(log, |seen|, key)
      ensures err == Some(Conflict) ==> |seen| <= w.read && Overtaken(log, key.name, w)
    {
      ghost var handled;
      err, committed, at, handled := Update(key, found.(replicas := Some(replicas)));
      w := Window(|seen|, |handled|);
      if committed {
        CommittedFromRead(seen, log, at, key, replicas, found);
      }
      AbsentNow(log, |seen|, handled, key);
      if err == Some(Conflict) {
        ReadIsOld(seen, handled, log, key);
      }
    }

    /** Reads the workload of one kind, and if it is there writes it back. */
    method ScaleKind(key: Key, replicas: int)
      returns (found: bool, err: Option<ApiError>,
               ghost committed: bool, ghost at: nat, ghost w: Window, ghost seen: seq<Write>)
      requires Valid()
      modifies this
      ensures Valid() && OneCommit(old(log), log, committed, at) && old(log) <= seen <= log
      ensures OurWrites(log) == OurWrites(old(log)) + if committed then 1 else 0
      ensures committed ==> log[at].key == key && ReplicasOnly(log, at, key.name, replicas)
      ensures err.None? ==> committed
      ensures err == Some(Conflict) || err == Some(NotFound) ==> !committed
      ensures !found ==> err.Some? && err != Some(Conflict) && !committed
      ensures calls == old(calls) + if found then 2 else 1
      ensures err.Some? && err.value.Other? ==> Faulty(gaps, old(calls), calls, err.value.code)
      ensures found ==> key in Replay(seen) && PresentAt(log, |old(log)|, key)
      ensures err == Some(NotFound) ==> AbsentAt(log, |old(log)|, key) && (!found ==> key !in Replay(seen))
      ensures err == Some(Conflict) ==> |old(log)| <= w.read && Overtaken(log, key.name, w)
    {
      committed, at, w := false, 0, Window(0, 0);
      var obj;
      obj, err, seen := Get(key);
      found := err.None?;
      if found {
        err, committed, at, w := WriteBack(key, obj.value, replicas, seen);
        MomentsKept(log, log, |old(log)|, |seen|, key);
      }
      AbsentNow(log, |old(log)|, seen, key);
    }

    /** One attempt: read the workload, set its desired replicas, write it back. */
    method ScaleOnce(name: string, replicas: int)
      returns (kind: Option<Kind>, err: Option<ScaleError>, ghost committed: bool, ghost at: nat, ghost w: Window)
      requires Valid()
      modifies this
      ensures Valid() && OneCommit(old(log), log, committed, at)
      ensures OurWrites(log) == OurWrites(old(log)) + if committed then 1 else 0
      ensures committed ==> ReplicasOnly(log, at, name, replicas)
      ensures committed ==> forall key :: TargetFixed(log, |old(log)|, name, key) ==> log[at].key == key
      ensures err.None? ==> committed
      ensures err == Some(Api(Conflict)) || err == Some(NoSuchWorkload) ==> !committed
      ensures kind.None? ==> err.Some? && !committed
      ensures committed ==> kind.Some? && log[at].key == Key(kind.value, name)
      ensures kind == Some(StatefulSet) ==> AbsentAt(log, |old(log)|, Key(Deployment, name))
      ensures old(calls) + (if err == Some(Api(Conflict)) then 2 else 1) <= calls <= old(calls) + 3
      ensures err.Some? ==> FailureExplained(gaps, old(calls), calls, log, |old(log)|, name, err.value)
      ensures err == Some(Api(Conflict)) ==> |old(log)| <= w.read && Overtaken(log, name, w)
    {
      ghost var from := |log|;
      var found, e;
      ghost var seen, first;
      found, e, committed, at, w, first := ScaleKind(Key(Deployment, name), replicas);
      FixedKinds(log, from, name, first);
      if found {
        return Some(Deployment), Wrap(e), committed, at, w;
      }
      if e != Some(NotFound) {
        return None, Wrap(e), false, 0, w;
      }
      ghost var early := log;
      found, e, committed, at, w, seen := ScaleKind(Key(StatefulSet, name), replicas);
      MomentsKept(early, log, from, from, Key(Deployment, name));
      MomentsKept(log, log, from, |early|, Key(StatefulSet, name));
      if found {
        FixedKinds(log, from, name, first);
        return Some(StatefulSet), Wrap(e), committed, at, w;
      }
      if e != Some(NotFound) {
        return None, Wrap(e), false, 0, w;
      }
      return None, Some(NoSuchWorkload), false, 0, w;
    }

    /** Sets the desired replicas, trying again only on a conflict, at most `steps` times.
        Success means one commit, in force from the moment it was made until someone else
        writes; everything else in the new history is other writers' work. */
    method Scale(name: string, replicas: int, steps: nat)
      returns (err: Option<ScaleError>, ghost committed: bool, ghost at: nat, ghost ws: seq<Window>)
      requires Valid() && steps >= 1
      modifies this
      ensures Valid() && OneCommit(old(log), log, committed, at)
      ensures OurWrites(log) == OurWrites(old(log)) + if committed then 1 else 0
      ensures err.None? ==> committed
      ensures err == Some(Api(Conflict)) || err == Some(NoSuchWorkload) ==> !committed
      ensures committed ==> ReplicasOnly(log, at, name, replicas) && InForce(log, at, replicas)
      ensures committed && log[at].key.kind.StatefulSet? ==> AbsentAt(log, |old(log)|, Key(Deployment, name))
      ensures committed ==> forall key :: TargetFixed(log, |old(log)|, name, key) ==> log[at].key == key
      ensures OursAreReplicasOnly(old(log)) ==> OursAreReplicasOnly(log)
      ensures AllOvertaken(log, |old(log)|, name, ws) && |ws| <= steps
      ensures old(calls) + 2 * |ws| <= calls
              <= old(calls) + 3 * if err == Some(Api(Conflict)) then |ws| else |ws| + 1
      ensures err == Some(Api(Conflict)) ==> |ws| == steps
      ensures err.Some? ==> FailureExplained(gaps, old(calls), calls, log, |old(log)|, name, err.value)
      ensures Undisturbed(gaps, old(calls), calls, log, |old(log)|, name) && |ws| < steps ==> err.None?
    {
      var attempt := 0;
      err, committed, at, ws := None, false, 0, [];
      while attempt < steps
        invariant attempt == |ws| <= steps && Valid() && !committed && OneCommit(old(log), log, false, 0)
        invariant OurWrites(log) == OurWrites(old(log))
        invariant attempt == 0 || err == Some(Api(Conflict))
        invariant AllOvertaken(log, |old(log)|, name, ws) && old(calls) + 2 * |ws| <= calls <= old(calls) + 3 * |ws|
        invariant forall a: nat :: a < |ws| ==> ws[a].wrote <= |log|
      {
        ghost var before, c0 := log, calls;
        var kind;
        ghost var w;
        kind, err, committed, at, w := ScaleOnce(name, replicas);
        attempt := attempt + 1;
        OvertakenLater(before, log, |old(log)|, name, ws);
        AttemptEnds(gaps, old(calls), c0, calls, old(log), before, log, name, replicas, committed, at, err);
        if err != Some(Api(Conflict)) {
          return;
        }
        ws := ws + [w];
      }
      StillReplicasOnly(old(log), log, name, replicas);
    }

    /** The ready replicas of a workload of that name at one moment of the poll; of the one
        that scaling writes, if the name keeps resolving to the same object. */
    method StatusReplicas(name: string)
      returns (ready: int, err: Option<ScaleError>, ghost seen: seq<Write>, ghost key: Key)
      requires Valid()
      modifies this
      ensures Valid() && OneCommit(old(log), log, false, 0) && OurWrites(log) == OurWrites(old(log)) && now >= old(now)
      ensures old(log) <= seen <= log && calls > old(calls)
      ensures err.None? ==> IsReady(seen, name, key, ready)
      ensures err.None? && key.kind.StatefulSet? ==> AbsentAt(log, |old(log)|, Key(Deployment, name))
      ensures err.None? ==> forall k :: TargetFixed(log, |old(log)|, name, k) ==> k == key
      ensures err.Some? ==> Unanswered(gaps, old(calls), calls, log, |old(log)|, name)
    {
      ghost var from, c0 := |log|, calls;
      ready, key := 0, Key(Deployment, name);
      var found, e;
      found, e, seen := Get(Key(Deployment, name));
      AbsentNow(log, from, seen, key);
      if e.None? {
        FixedKinds(log, from, name, seen);
        return found.value.ready, None, seen, key;
      }
      if e != Some(NotFound) {
        FaultUnanswered(gaps, c0, c0, calls, log, from, name, e.value.code);
        return 0, Wrap(e), seen, key;
      }
      ghost var c, noDeployment, first := calls, seen, log;
      key := Key(StatefulSet, name);
      found, e, seen := Get(Key(StatefulSet, name));
      MomentsKept(first, log, from, from, Key(Deployment, name));
      AbsentNow(log, from, seen, key);
      if e.None? {
        FixedKinds(log, from, name, noDeployment);
        return found.value.ready, None, seen, key;
      }
      if e != Some(NotFound) {
        FaultUnanswered(gaps, c0, c, calls, log, from, name, e.value.code);
        return 0, Wrap(e), seen, key;
      }
      return 0, Some(NoSuchWorkload), seen, key;
    }

    /** One poll, and what it was told. */
    method PollOnce(name: string) returns (ready: int, err: Option<ScaleError>, ghost poll: Poll)
      requires Valid()
      modifies this
      ensures Valid() && OneCommit(old(log), log, false, 0) && OurWrites(log) == OurWrites(old(log)) && now >= old(now)
      ensures PollHolds(gaps, old(calls), |old(log)|, log, name, poll)
      ensures poll.from == old(calls) && poll.to == calls && poll.began == old(now) && poll.ended == now
      ensures poll.ready == if err.None? then Some(ready) else None
      ensures err.None? ==> forall k :: TargetFixed(log, |old(log)|, name, k) ==> k == poll.key
    {
      ghost var c0, early, began := calls, |log|, now;
      ghost var seen, key;
      ready, err, seen, key := StatusReplicas(name);
      assert log[..|seen|] == seen;
      poll := Poll(if err.None? then Some(ready) else None, |seen|, key, c0, calls, early, began, now);
    }

    /** The next poll of a wait, added to what its polls were told. */
    method PollAgain(ghost c0: nat, ghost from: nat, name: string, ghost want: int, ghost start: nat, ghost doneAt: nat,
                     ghost polled: seq<Poll>)
      returns (ready: int, err: Option<ScaleError>, ghost told: seq<Poll>)
      requires Valid() && c0 <= calls && from <= |log|
      requires Polled(gaps, c0, from, log, name, want, start, doneAt, polled)
      requires NextIs(gaps, want, start, doneAt, polled, calls, now)
      modifies this
      ensures Valid() && OneCommit(old(log), log, false, 0) && OurWrites(log) == OurWrites(old(log)) && now >= old(now)
      ensures |told| == |polled| + 1 && Polled(gaps, c0, from, log, name, want, start, doneAt, told)
      ensures var last := told[|polled|];
              last.ready == (if err.None? then Some(ready) else None)
              && last.to == calls > old(calls) && last.ended == now
      ensures err.None? ==> forall k :: TargetFixed(log, from, name, k) ==> k == told[|polled|].key
    {
      ghost var before := log;
      ghost var poll;
      ready, err, poll := PollOnce(name);
      PollAdded(gaps, c0, from, before, log, name, want, start, doneAt, polled, poll);
      FixedLater(log, from, |before|, name);
      told := polled + [poll];
    }

    /** Waits for the tick after poll number `polls`, or the end; if both are due when the
        goroutine wakes, the select takes either. */
    method AwaitTick(start: nat, polls: nat, doneAt: nat) returns (ticked: bool)
      modifies this`now
      ensures now == NextTick(start, polls, old(now), doneAt) + gaps(calls).lag
      ensures ticked ==> now >= start + polls * POLL_INTERVAL
      ensures !ticked ==> now >= doneAt
    {
      var tick := start + polls * POLL_INTERVAL;
      if tick < now {
        tick := now;
      }
      var gap := gaps(calls);
      now := (if tick <= doneAt then tick else doneAt) + gap.lag;
      ticked := !(now >= doneAt && !(now >= tick && gap.tickWins));
    }

    /** Polls until the ready replicas are as wanted or the time is up. It writes nothing and
        polls a bounded number of times, each poll at the first tick after the one before; it
        succeeds on the first poll that sees a workload of that name as wanted, and fails only
        if no poll did and the time is up or the caller has ended. */
    method WaitForReplicas(name: string, want: int, timeout: nat, cancelAt: Option<nat>)
      returns (ok: bool, polls: nat, ghost told: seq<Poll>)
      requires Valid()
      modifies this
      ensures Valid() && OneCommit(old(log), log, false, 0) && OurWrites(log) == OurWrites(old(log))
      ensures 0 < polls == |told| <= CeilDiv(timeout, 2_000_000_000) + 1
      ensures forall i :: 0 <= i < polls - 1 ==>
        told[i].ended < old(now) + timeout && (cancelAt.Some? ==> told[i].ended < cancelAt.value)
      ensures Polled(gaps, old(calls), |old(log)|, log, name, want, old(now), DoneAt(old(now), timeout, cancelAt), told)
      ensures ok <==> told[polls - 1].ready == Some(want)
      ensures ok ==> forall k :: TargetFixed(log, |old(log)|, name, k) ==> k == told[polls - 1].key
      ensures !ok ==> now >= old(now) + timeout || (cancelAt.Some? && now >= cancelAt.value)
    {
      var start := now;
      var doneAt := DoneAt(start, timeout, cancelAt);
      ghost var c0, from := calls, |log|;
      polls, told := 0, [];
      while true
        invariant Valid() && OneCommit(old(log), log, false, 0) && OurWrites(log) == OurWrites(old(log))
        invariant now >= start + polls * POLL_INTERVAL && calls >= c0
        invariant polls == |told| <= CeilDiv(timeout, POLL_INTERVAL)
        invariant Polled(gaps, c0, from, log, name, want, start, doneAt, told)
        invariant NextIs(gaps, want, start, doneAt, told, calls, now)
        decreases CeilDiv(timeout, POLL_INTERVAL) - polls
      {
        var ready, err;
        ready, err, told := PollAgain(c0, from, name, want, start, doneAt, told);
        polls := polls + 1;
        if err.None? && ready == want {
          return true, polls, told;
        }
        if now >= doneAt {
          return false, polls, told;
        }
        InTime(polls, start, now, doneAt, timeout);
        var ticked := AwaitTick(start, polls, doneAt);
        if !ticked {
          return false, polls, told;
        }
      }
    }
  }
}
