/** Which mount of a container counts, and what is noted about the others. */
module MountMeaning {
  import opened Options
  import opened Mounts

  /** `ms[i]` is the first mount of its path, and nothing of `seen` was mounted there. */
  ghost predicate FirstAt(ms: seq<VolumeMount>, seen: set<string>, i: int) {
    0 <= i < |ms| && ms[i].path !in seen && forall j :: 0 <= j < i ==> ms[j].path != ms[i].path
  }

  /** At every path the first mount that names it is made. */
  lemma {:induction false} FirstMountWins(inp: Input, ms: seq<VolumeMount>, seen: set<string>, i: int)
    requires FirstAt(ms, seen, i)
    ensures exists f :: f in FlagsOf(inp, ms, seen) && Stands(inp, ms[i], f)
    decreases |ms|
  {
    if i == 0 {
      assert Stands(inp, ms[0], FlagOf(inp, ms[0]));
      assert FlagsOf(inp, ms, seen)[0] == FlagOf(inp, ms[0]);
    } else {
      hide FlagOf, Stands;
      var seen' := if ms[0].path in seen then seen else seen + {ms[0].path};
      assert ms[1..][i - 1] == ms[i];
      FirstMountWins(inp, ms[1..], seen', i - 1);
      var f :| f in FlagsOf(inp, ms[1..], seen') && Stands(inp, ms[i], f);
      assert f in FlagsOf(inp, ms, seen);
    }
  }

  // ---- Notes ----

  /** What a mount that is made gets noted. */
  ghost predicate Noted(inp: Input, m: VolumeMount, x: Note) {
    var declared := m.name in inp.declared;
    var config := declared && inp.declared[m.name] == ConfigMap(inp.configMapName);
    match x
    case DuplicateMount(_) => false
    case ConfigSubPathEmpty(sub) => config && sub == m.subPath && sub !in {"", inp.configFile}
    case MountedEmpty(volume, path) =>
      !config && declared && inp.declared[m.name] != Scratch && volume == m.name && path == m.path
    case SeparateVolume(sub, volume) =>
      !config && inp.pod && !inp.volumeSubpath && sub == m.subPath != "" && volume == m.name
  }

  /** Some mount of the container makes the note. */
  ghost predicate NotedIn(inp: Input, ms: seq<VolumeMount>, seen: set<string>, x: Note) {
    || (x.DuplicateMount? && exists i :: 0 <= i < |ms| && ms[i].path == x.path && !FirstAt(ms, seen, i))
    || exists i :: FirstAt(ms, seen, i) && Noted(inp, ms[i], x)
  }

  lemma NotedByOne(inp: Input, n: Needs, m: VolumeMount, x: Note)
    ensures x in NeedsOf(inp, n, m).notes <==> x in n.notes || Noted(inp, m, x)
  {
  }

  lemma FirstAtStep(ms: seq<VolumeMount>, seen: set<string>, i: int)
    requires ms != []
    ensures FirstAt(ms, seen, 0) <==> ms[0].path !in seen
    ensures i > 0 ==> (FirstAt(ms, seen, i) <==> FirstAt(ms[1..], seen + {ms[0].path}, i - 1))
  {
    if 0 < i < |ms| {
      assert forall j :: 0 < j <= i ==> ms[1..][j - 1] == ms[j];
      if FirstAt(ms[1..], seen + {ms[0].path}, i - 1) {
        forall j | 0 <= j < i ensures ms[j].path != ms[i].path {
          if j > 0 { assert ms[1..][j - 1].path != ms[1..][i - 1].path; }
        }
      }
    }
  }

  /** The notes of a container's mounts: every mount whose path is taken, and what the others ask for. */
  lemma {:induction false} MountsNoted(inp: Input, n: Needs, ms: seq<VolumeMount>, seen: set<string>, x: Note)
    ensures x in NeedsOfAll(inp, n, ms, seen).notes <==> x in n.notes || NotedIn(inp, ms, seen, x)
    decreases |ms|
  {
    if ms != [] {
      var m, rest, seen' := ms[0], ms[1..], seen + {ms[0].path};
      var n' := if m.path in seen then WithNote(n, DuplicateMount(m.path)) else NeedsOf(inp, n, m);
      NotedByOne(inp, n, m, x);
      NotedStep(inp, ms, seen, x);
      assert m.path in seen ==> seen' == seen;
      hide NotedIn, Noted, NeedsOf;
      MountsNoted(inp, n', rest, seen', x);
    }
  }

  lemma NotedStep(inp: Input, ms: seq<VolumeMount>, seen: set<string>, x: Note)
    requires ms != []
    ensures NotedIn(inp, ms, seen, x) <==>
              || (if ms[0].path in seen then x == DuplicateMount(ms[0].path) else Noted(inp, ms[0], x))
              || NotedIn(inp, ms[1..], seen + {ms[0].path}, x)
  {
    var rest, seen' := ms[1..], seen + {ms[0].path};
    forall i ensures FirstAt(ms, seen, 0) <==> ms[0].path !in seen
             ensures i > 0 ==> (FirstAt(ms, seen, i) <==> FirstAt(rest, seen', i - 1)) {
      FirstAtStep(ms, seen, i);
    }
    assert forall i :: FirstAt(ms, seen, i) ==> i >= 0;
    assert forall i :: FirstAt(rest, seen', i) ==> 0 <= i < |rest|;
    hide FirstAt, Noted;
    forall i | 0 <= i < |rest| ensures rest[i] == ms[i + 1] && (FirstAt(rest, seen', i) <==> FirstAt(ms, seen, i + 1)) {
      assert FirstAt(ms, seen, i + 1) <==> FirstAt(rest, seen', i + 1 - 1);
    }
    if NotedIn(inp, rest, seen', x) {
      if i :| FirstAt(rest, seen', i) && Noted(inp, rest[i], x) {
        assert FirstAt(ms, seen, i + 1);
      } else {
        var i :| 0 <= i < |rest| && rest[i].path == x.path && !FirstAt(rest, seen', i);
        assert ms[i + 1].path == x.path && !FirstAt(ms, seen, i + 1);
      }
    }
    if NotedIn(inp, ms, seen, x) {
      if i :| FirstAt(ms, seen, i) && Noted(inp, ms[i], x) {
        if i > 0 { assert FirstAt(rest, seen', i - 1) && rest[i - 1] == ms[i]; }
      } else {
        var i :| 0 <= i < |ms| && ms[i].path == x.path && !FirstAt(ms, seen, i);
        if i > 0 { assert rest[i - 1] == ms[i] && !FirstAt(rest, seen', i - 1); }
      }
    }
  }
}
