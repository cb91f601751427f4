/** The start script of Blast, whose init a marker records. */
module BlastBootstrap {
  import opened Options

  type Bytes = string

  /** The chain database: absent, cut short, or fully initialised from a genesis. */
  datatype Database = Absent | Partial | From(genesis: Bytes)

  datatype Disk = Disk(part: Option<Bytes>, genesis: Option<Bytes>, db: Database, marker: bool)

  datatype Pc = Check | Wget | Compare | Move | GethInit | RemoveGenesis | Touch | Exec | Exited

  datatype State = State(pc: Pc, disk: Disk)

  ghost predicate Step(sha: Bytes -> Bytes, pin: Bytes, s: State, t: State) {
    var d := s.disk;
    match s.pc
    case Check => t == State(if d.marker then Exec else Wget, d)
    case Wget => exists b :: t.disk == d.(part := Some(b)) && (t.pc.Wget? || t.pc.Compare?)
    case Compare =>
      t == if d.part.Some? && sha(d.part.value) == pin then State(Move, d) else State(Exited, d.(part := None))
    case Move => d.part.Some? && t == State(GethInit, d.(genesis := d.part, part := None))
    case GethInit =>
      && d.genesis.Some?
      && (t == State(GethInit, d.(db := Partial)) || t == State(RemoveGenesis, d.(db := From(d.genesis.value))))
    case RemoveGenesis => t == State(Touch, d.(genesis := None))
    case Touch => t == State(Exec, d.(marker := true))
    case _ => false
  }

  ghost predicate Restart(s: State, t: State) { t == State(Check, s.disk) }

  /** The volume starts without a marker; anything else may be on it. */
  ghost predicate Run(sha: Bytes -> Bytes, pin: Bytes, ss: seq<State>) {
    && ss != [] && ss[0].pc.Check? && !ss[0].disk.marker
    && forall i :: 0 <= i < |ss| - 1 ==> Step(sha, pin, ss[i], ss[i + 1]) || Restart(ss[i], ss[i + 1])
  }

  ghost predicate Initialised(sha: Bytes -> Bytes, pin: Bytes, d: Disk) {
    d.db.From? && sha(d.db.genesis) == pin
  }

  ghost predicate Inv(sha: Bytes -> Bytes, pin: Bytes, s: State) {
    var d := s.disk;
    && (d.marker ==> Initialised(sha, pin, d) && (s.pc.Check? || s.pc.Exec?))
    && match s.pc
       case Move => d.part.Some? && sha(d.part.value) == pin
       case GethInit => d.genesis.Some? && sha(d.genesis.value) == pin
       case RemoveGenesis => Initialised(sha, pin, d)
       case Touch => Initialised(sha, pin, d)
       case Exec => d.marker
       case _ => true
  }

  lemma StepKeeps(sha: Bytes -> Bytes, pin: Bytes, s: State, t: State)
    requires Inv(sha, pin, s) && (Step(sha, pin, s, t) || Restart(s, t))
    ensures Inv(sha, pin, t)
    ensures s.disk.marker ==> t.disk == s.disk
  {
  }

  /**
   The marker, and with it the start of geth, only ever exists next to a
   database fully initialised from a genesis that matches its pin.
   */
  lemma MarkerMeansInitialised(sha: Bytes -> Bytes, pin: Bytes, ss: seq<State>)
    requires Run(sha, pin, ss)
    ensures forall i :: 0 <= i < |ss| ==> Inv(sha, pin, ss[i])
    ensures forall i :: 0 <= i < |ss| && (ss[i].pc.Exec? || ss[i].disk.marker) ==>
              ss[i].disk.db.From? && sha(ss[i].disk.db.genesis) == pin
  {
    var i := 0;
    while i < |ss| - 1
      invariant 0 <= i < |ss| && forall k :: 0 <= k <= i ==> Inv(sha, pin, ss[k])
    {
      assert Step(sha, pin, ss[i], ss[i + 1]) || Restart(ss[i], ss[i + 1]);
      StepKeeps(sha, pin, ss[i], ss[i + 1]);
      i := i + 1;
    }
  }

  /** And the record is final: no later start touches the database again. */
  lemma {:induction false} MarkerFinal(sha: Bytes -> Bytes, pin: Bytes, ss: seq<State>, i: nat, k: nat)
    requires Run(sha, pin, ss) && i <= k < |ss| && ss[i].disk.marker
    ensures ss[k].disk == ss[i].disk
  {
    if i < k {
      MarkerFinal(sha, pin, ss, i, k - 1);
      MarkerMeansInitialised(sha, pin, ss);
      StepKeeps(sha, pin, ss[k - 1], ss[k]);
    }
  }

  /**
   A start that gets the pinned genesis and is not cut off initialises the database from it,
   whatever is on the volume; one that finds the marker starts geth on what is there.
   */
  lemma StartCompletes(sha: Bytes -> Bytes, pin: Bytes, d: Disk, b: Bytes) returns (ss: seq<State>)
    requires sha(b) == pin
    ensures ss != [] && ss[0] == State(Check, d)
    ensures forall i :: 0 <= i < |ss| - 1 ==> Step(sha, pin, ss[i], ss[i + 1])
    ensures ss[|ss| - 1] == State(Exec, if d.marker then d else Disk(None, None, From(b), true))
  {
    if d.marker {
      return [State(Check, d), State(Exec, d)];
    }
    var loaded := d.(part := Some(b));
    var moved := d.(part := None, genesis := Some(b));
    var done := moved.(db := From(b));
    var cleared := done.(genesis := None);
    ss := [State(Check, d), State(Wget, d), State(Compare, loaded), State(Move, loaded), State(GethInit, moved),
           State(RemoveGenesis, done), State(Touch, cleared), State(Exec, cleared.(marker := true))];
  }
}
