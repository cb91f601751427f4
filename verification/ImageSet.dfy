/** The image set that concurrent smoke runs share, under every interleaving of the jobs. */
module ImageSet {
  import opened Options

  type Ref = string

  // ---- The object ----

  /** The two maps of an image set, as values. */
  datatype Ledger = Ledger(keep: bool, users: map<Ref, int>, preexisting: map<Ref, bool>) {
    function Users(r: Ref): int { if r in users then users[r] else 0 }

    predicate Seen(r: Ref) { r in preexisting }

    /** The result of the first look at the host. */
    function Inspected(r: Ref, found: bool): Ledger { this.(preexisting := preexisting[r := found]) }

    function Counted(r: Ref): Ledger { this.(users := users[r := Users(r) + 1]) }

    function Dropped(r: Ref): Ledger { this.(users := users[r := Users(r) - 1]) }

    /** Whether the caller that just dropped `r` has to remove the image. */
    predicate MustRemove(r: Ref) { !(Users(r) > 0 || keep || (Seen(r) && preexisting[r])) }
  }

  class Images {
    const keep: bool
    var users: map<Ref, int>
    var preexisting: map<Ref, bool>

    function Value(): Ledger
      reads this
    {
      Ledger(keep, users, preexisting)
    }

    constructor (keep: bool)
      ensures Value() == Ledger(keep, map[], map[])
    {
      this.keep := keep;
      users, preexisting := map[], map[];
    }

    /** The part of `acquire` that holds the mutex; `found` is what inspecting the host answers. */
    method Acquire(r: Ref, found: bool)
      modifies this
      ensures Value() == (if old(Value()).Seen(r) then old(Value()) else old(Value()).Inspected(r, found)).Counted(r)
    {
      if r !in preexisting {
        preexisting := preexisting[r := found];
      }
      users := users[r := (if r in users then users[r] else 0) + 1];
    }

    /** `release`, up to the removal it may ask for while still holding the mutex. */
    method Release(r: Ref) returns (remove: bool)
      modifies this
      ensures Value() == old(Value()).Dropped(r)
      ensures remove == Value().MustRemove(r)
    {
      users := users[r := (if r in users then users[r] else 0) - 1];
      if (r in users && users[r] > 0) || keep || (r in preexisting && preexisting[r]) {
        return false;
      }
      return true;
    }
  }

  // ---- Concurrent jobs ----

  ghost function Span(refs: seq<Ref>, lo: nat, hi: nat): set<Ref>
    requires hi <= |refs|
  {
    set i: nat | lo <= i < hi :: refs[i]
  }

  /** Where a job is; the states that mention an index run the deferred release loop. */
  datatype Pc =
    | Next
    | Inspecting
    | Counting
    | Pulling
    | Running
    | Unwinding(k: nat)
    | Dropping(k: nat)
    | Removing(k: nat)
    | Finished

  /**
   `got` is the length of the job's `acquired` list, `pulled` how many of those pulls
   succeeded, `up` the images of the job's containers on the host.
   */
  datatype Job = Job(refs: seq<Ref>, pc: Pc, got: nat, pulled: nat, up: set<Ref>) {
    ghost predicate Valid() {
      && (forall i, j :: 0 <= i < j < |refs| ==> refs[i] != refs[j])
      && refs != [] && pulled <= got <= |refs|
      && (forall r :: r in up ==> r in refs) && (up != {} ==> pc.Running?)
      && match pc
         case Next => pulled == got < |refs|
         case Inspecting => pulled + 1 == got
         case Counting => pulled + 1 == got
         case Pulling => pulled + 1 == got
         case Running => pulled == got == |refs|
         case Unwinding(k) => k <= got
         case Dropping(k) => k < got
         case Removing(k) => k < got
         case Finished => true
    }

    predicate Critical() { pc.Inspecting? || pc.Counting? || pc.Dropping? || pc.Removing? }

    /** The references this job is counted as a user of. */
    ghost function Held(): set<Ref>
      requires Valid()
    {
      match pc
      case Inspecting => Span(refs, 0, got - 1)
      case Counting => Span(refs, 0, got - 1)
      case Unwinding(k) => Span(refs, k, got)
      case Dropping(k) => Span(refs, k, got)
      case Removing(k) => Span(refs, k + 1, got)
      case Finished => {}
      case _ => Span(refs, 0, got)
    }

    /** The references whose pull finished and that this job has not released yet. */
    ghost function InUse(): set<Ref>
      requires Valid()
    {
      match pc
      case Unwinding(k) => Span(refs, k, pulled)
      case Dropping(k) => Span(refs, k, pulled)
      case Removing(k) => Span(refs, k + 1, pulled)
      case Finished => {}
      case _ => Span(refs, 0, pulled)
    }

    /** The reference a job in the critical section works on. */
    function Current(): Ref
      requires Critical() && 0 < got <= |refs| && (pc.Dropping? || pc.Removing? ==> pc.k < got)
    {
      if pc.Dropping? || pc.Removing? then refs[pc.k] else refs[got - 1]
    }
  }

  /**
   `images` is the host's image set, `lied` the references an inspection called
   absent although they were there (an interrupted `docker image inspect` fails too).
   */
  datatype World = World(
    ledger: Ledger, images: set<Ref>, lock: Option<nat>, jobs: seq<Job>, lied: set<Ref>) {

    function With(j: nat, job: Job): World
      requires j < |jobs|
    {
      this.(jobs := jobs[j := job])
    }
  }

  ghost predicate Init(w: World) {
    && w.ledger.users == map[] && w.ledger.preexisting == map[]
    && w.lock == None && w.lied == {}
    && forall j :: 0 <= j < |w.jobs| ==>
         w.jobs[j].Valid() && w.jobs[j].got == 0 && (w.jobs[j].pc.Next? || w.jobs[j].pc.Finished?)
  }

  // ---- Steps of job `j` ----

  ghost predicate TakeAcquire(w: World, w': World, j: nat) {
    && j < |w.jobs| && w.lock == None
    && var a := w.jobs[j];
       && a.pc.Next? && a.got < |a.refs|
       && var pc := if w.ledger.Seen(a.refs[a.got]) then Counting else Inspecting;
          w' == w.With(j, a.(pc := pc, got := a.got + 1)).(lock := Some(j))
  }

  /** An image that is found is there; one that is not found may still be. */
  ghost predicate Inspect(w: World, w': World, j: nat, found: bool) {
    && j < |w.jobs|
    && var a := w.jobs[j];
       && a.pc.Inspecting? && 0 < a.got <= |a.refs|
       && var r := a.refs[a.got - 1];
          && (found ==> r in w.images)
          && w' == w.With(j, a.(pc := Counting)).(
                     ledger := w.ledger.Inspected(r, found),
                     lied := if r in w.images && !found then w.lied + {r} else w.lied)
  }

  ghost predicate Count(w: World, w': World, j: nat) {
    && j < |w.jobs|
    && var a := w.jobs[j];
       && a.pc.Counting? && 0 < a.got <= |a.refs|
       && w' == w.With(j, a.(pc := Pulling)).(ledger := w.ledger.Counted(a.refs[a.got - 1]), lock := None)
  }

  ghost predicate Pull(w: World, w': World, j: nat, ok: bool) {
    && j < |w.jobs|
    && var a := w.jobs[j];
       && a.pc.Pulling? && 0 < a.got <= |a.refs|
       && if ok then
            w' == w.With(j, a.(pc := if a.got == |a.refs| then Running else Next, pulled := a.got)).(
                    images := w.images + {a.refs[a.got - 1]})
          else
            w' == w.With(j, a.(pc := Unwinding(0)))
  }

  /** A container of the job is created from one of its images. */
  ghost predicate Start(w: World, w': World, j: nat) {
    && j < |w.jobs| && w.jobs[j].pc.Running?
    && exists r :: r in w.jobs[j].refs && r !in w.jobs[j].up && w' == w.With(j, w.jobs[j].(up := w.jobs[j].up + {r}))
  }

  /** The deferred removal of the job's containers, which comes before the deferred releases. */
  ghost predicate Stop(w: World, w': World, j: nat) {
    && j < |w.jobs| && w.jobs[j].pc.Running?
    && w' == w.With(j, w.jobs[j].(pc := Unwinding(0), up := {}))
  }

  ghost predicate TakeRelease(w: World, w': World, j: nat) {
    && j < |w.jobs|
    && var a := w.jobs[j];
       && a.pc.Unwinding?
       && if a.pc.k == a.got then w' == w.With(j, a.(pc := Finished))
          else w.lock == None && a.pc.k < a.got && w' == w.With(j, a.(pc := Dropping(a.pc.k))).(lock := Some(j))
  }

  ghost predicate Drop(w: World, w': World, j: nat) {
    && j < |w.jobs|
    && var a := w.jobs[j];
       && a.pc.Dropping? && a.pc.k < |a.refs|
       && var r := a.refs[a.pc.k];
          var l := w.ledger.Dropped(r);
          w' == if l.MustRemove(r)
                then w.With(j, a.(pc := Removing(a.pc.k))).(ledger := l)
                else w.With(j, a.(pc := Unwinding(a.pc.k + 1))).(ledger := l, lock := None)
  }

  ghost predicate Remove(w: World, w': World, j: nat) {
    && j < |w.jobs|
    && var a := w.jobs[j];
       && a.pc.Removing? && a.pc.k < |a.refs|
       && w' == w.With(j, a.(pc := Unwinding(a.pc.k + 1))).(
                  images := w.images - {a.refs[a.pc.k]}, lock := None)
  }

  ghost predicate StepOf(w: World, w': World, j: nat) {
    || TakeAcquire(w, w', j) || Inspect(w, w', j, true) || Inspect(w, w', j, false) || Count(w, w', j)
    || Pull(w, w', j, true) || Pull(w, w', j, false) || Start(w, w', j) || Stop(w, w', j)
    || TakeRelease(w, w', j) || Drop(w, w', j) || Remove(w, w', j)
  }

  ghost predicate Step(w: World, w': World) { exists j: nat :: StepOf(w, w', j) }

  ghost predicate Run(ws: seq<World>) {
    && ws != [] && Init(ws[0])
    && forall i :: 0 <= i < |ws| - 1 ==> Step(ws[i], ws[i + 1])
  }
}
