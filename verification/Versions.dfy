/** Ordering of release tags, and the choice of the tag to update to. */
module Versions {

  import opened Options

  // ---- Semantic versions ----

  /** A parsed version; `pre` ranks pre-releases of one release, the release itself highest. */
  datatype Version = Version(major: nat, minor: nat, patch: nat, pre: real) {
    predicate Above(v: Version) {
      || major > v.major
      || (major == v.major && minor > v.minor)
      || (major == v.major && minor == v.minor && patch > v.patch)
      || (major == v.major && minor == v.minor && patch == v.patch && pre > v.pre)
    }

    /** The release line: the major version, or the minor one before 1.0. */
    function Line(): (nat, nat) { if major == 0 then (0, minor + 1) else (major, 0) }
  }

  /**
   What a chain's version policy makes of a tag: the version it carries ("" if
   none), whether that is a stable release, and how it parses once the prefix is cut.
   */
  datatype Policy = Policy(
    versionOf: string -> string, stable: string -> bool, parse: string -> Option<Version>) {

    predicate IsNewer(candidate: string, current: string) {
      parse(candidate).Some? && parse(current).Some? && parse(candidate).value.Above(parse(current).value)
    }

    /** Newer and in another major version, or in another minor one from 0.x. */
    predicate IsMajorBump(candidate: string, current: string) {
      && IsNewer(candidate, current)
      && var c, v := parse(candidate).value, parse(current).value;
         if v.major == 0 then (c.major, c.minor) != (v.major, v.minor) else c.major != v.major
    }

    predicate Usable(v: string) { v != "" && stable(v) }

    /** A pin no pattern matches is compared as it is. */
    function CurrentVersion(tag: string): string { if versionOf(tag) != "" then versionOf(tag) else tag }

    predicate SameLine(v: string, w: string) {
      parse(v).Some? && parse(w).Some? && parse(v).value.Line() == parse(w).value.Line()
    }
  }

  /** The precedence of semantic versions: the first part that differs decides, and a release is above its pre-releases. */
  lemma Precedence(p: Policy, c: string, v: string)
    requires p.parse(c).Some? && p.parse(v).Some?
    ensures var a, b := p.parse(c).value, p.parse(v).value;
            && (a.major > b.major ==> p.IsNewer(c, v))
            && (a.major == b.major && a.minor > b.minor ==> p.IsNewer(c, v))
            && (a.major == b.major && a.minor == b.minor && a.patch > b.patch ==> p.IsNewer(c, v))
            && (a == b.(pre := a.pre) && a.pre > b.pre ==> p.IsNewer(c, v))
            && (p.IsNewer(c, v) ==> !p.IsNewer(v, c) && a != b)
            && (p.IsNewer(c, v) || p.IsNewer(v, c) || a == b)
  {
  }

  /** A major bump changes the major version, or before 1.0 the minor one; that is, it leaves the release line. */
  lemma MajorBumpLeavesLine(p: Policy, c: string, v: string)
    ensures p.IsMajorBump(c, v) <==> p.IsNewer(c, v) && !p.SameLine(c, v)
    ensures p.IsNewer(c, v) ==>
              var a, b := p.parse(c).value, p.parse(v).value;
              p.SameLine(c, v) <==> a.major == b.major && (b.major >= 1 || a.minor == b.minor)
  {
  }

  // ---- Newest ----

  function NewestFrom(p: Policy, best: string, vs: seq<string>): string
    decreases |vs|
  {
    if vs == [] then best
    else if p.parse(vs[0]).Some? && (best == "" || p.IsNewer(vs[0], best)) then NewestFrom(p, vs[0], vs[1..])
    else NewestFrom(p, best, vs[1..])
  }

  function Newest(p: Policy, vs: seq<string>): string { NewestFrom(p, "", vs) }

  method FindNewest(p: Policy, vs: seq<string>) returns (best: string)
    ensures best == Newest(p, vs)
  {
    best := "";
    assert vs[0..] == vs;
    for i := 0 to |vs|
      invariant NewestFrom(p, best, vs[i..]) == Newest(p, vs)
    {
      assert vs[i..][1..] == vs[i + 1..];
      if p.parse(vs[i]).Some? && (best == "" || p.IsNewer(vs[i], best)) {
        best := vs[i];
      }
    }
    assert vs[|vs|..] == [];
  }

  /** `best` is a greatest parsable element of `vs`, or "" when there is none. */
  ghost predicate Greatest(p: Policy, best: string, vs: seq<string>) {
    && (best == "" <==> forall v :: v in vs ==> p.parse(v).None?)
    && (best != "" ==> best in vs && p.parse(best).Some? && forall v :: v in vs ==> !p.IsNewer(v, best))
  }

  lemma GreatestOfOneMore(p: Policy, best: string, done: seq<string>, v: string)
    requires Greatest(p, best, done) && v != ""
    ensures var best' := if p.parse(v).Some? && (best == "" || p.IsNewer(v, best)) then v else best;
            Greatest(p, best', done + [v])
  {
    var best' := if p.parse(v).Some? && (best == "" || p.IsNewer(v, best)) then v else best;
    assert v in done + [v];
    assert forall w :: w in done + [v] <==> w in done || w == v;
    forall w | w in done + [v] ensures best' != "" ==> !p.IsNewer(w, best') {
      if w in done && best != "" && p.parse(w).Some? { assert !p.IsNewer(w, best); }
    }
  }

  // ---- Picking a tag ----

  datatype Pick = Pick(latest: string, newer: bool, major: bool, sameMajor: string)

  function StableVersions(p: Policy, tags: seq<string>): seq<string> {
    if tags == [] then []
    else (if p.Usable(p.versionOf(tags[0])) then [p.versionOf(tags[0])] else []) + StableVersions(p, tags[1..])
  }

  /** The last tag of each stable version. */
  function ByVersion(p: Policy, tags: seq<string>): map<string, string> {
    if tags == [] then map[]
    else (if p.Usable(p.versionOf(tags[0])) then map[p.versionOf(tags[0]) := tags[0]] else map[])
         + ByVersion(p, tags[1..])
  }

  /** The versions an update may go to without leaving the line of `current`. */
  function SameLineUpdates(p: Policy, current: string, vs: seq<string>): seq<string> {
    if vs == [] then []
    else (if p.IsNewer(vs[0], current) && !p.IsMajorBump(vs[0], current) then [vs[0]] else [])
         + SameLineUpdates(p, current, vs[1..])
  }

  lemma {:induction false} ByVersionInverts(p: Policy, tags: seq<string>)
    ensures forall v :: v in StableVersions(p, tags) <==> v in ByVersion(p, tags)
    ensures forall v :: v in ByVersion(p, tags) ==>
              p.Usable(v) && p.versionOf(ByVersion(p, tags)[v]) == v && ByVersion(p, tags)[v] in tags
    ensures forall t :: t in tags && p.Usable(p.versionOf(t)) ==> p.versionOf(t) in ByVersion(p, tags)
  {
    if tags != [] {
      ByVersionInverts(p, tags[1..]);
      assert forall t :: t in tags <==> t == tags[0] || t in tags[1..];
    }
  }

  lemma {:induction false} SameLineMembers(p: Policy, current: string, vs: seq<string>)
    ensures forall v :: v in SameLineUpdates(p, current, vs)
              <==> v in vs && p.IsNewer(v, current) && !p.IsMajorBump(v, current)
  {
    if vs != [] { SameLineMembers(p, current, vs[1..]); }
  }

  lemma NewestMember(p: Policy, vs: seq<string>)
    requires forall v :: v in vs ==> v != ""
    ensures Greatest(p, Newest(p, vs), vs)
  {
    var best := "";
    assert vs[0..] == vs;
    for i := 0 to |vs|
      invariant NewestFrom(p, best, vs[i..]) == Newest(p, vs) && Greatest(p, best, vs[..i])
    {
      assert vs[i..][1..] == vs[i + 1..] && vs[..i + 1] == vs[..i] + [vs[i]];
      assert vs[i] in vs;
      GreatestOfOneMore(p, best, vs[..i], vs[i]);
      if p.parse(vs[i]).Some? && (best == "" || p.IsNewer(vs[i], best)) {
        best := vs[i];
      }
    }
    assert vs[..|vs|] == vs && vs[|vs|..] == [];
  }

  function PickSpec(p: Policy, currentTag: string, tags: seq<string>): Pick {
    var vs := StableVersions(p, tags);
    var latest := Newest(p, vs);
    ByVersionInverts(p, tags);
    NewestMember(p, vs);
    if latest == "" then Pick("", false, false, "")
    else
      var current := p.CurrentVersion(currentTag);
      var major := p.IsNewer(latest, current) && p.IsMajorBump(latest, current);
      var line := SameLineUpdates(p, current, vs);
      SameLineMembers(p, current, vs);
      NewestMember(p, line);
      Pick(ByVersion(p, tags)[latest], p.IsNewer(latest, current), major,
           if major && Newest(p, line) != "" then ByVersion(p, tags)[Newest(p, line)] else "")
  }

  method PickLatest(p: Policy, currentTag: string, tags: seq<string>) returns (r: Pick)
    ensures r == PickSpec(p, currentTag, tags)
  {
    var byVersion, stable := CollectStable(p, tags);
    ByVersionInverts(p, tags);
    var latest := FindNewest(p, stable);
    if latest == "" {
      return Pick("", false, false, "");
    }
    NewestMember(p, stable);
    var current := p.CurrentVersion(currentTag);
    r := Pick(byVersion[latest], p.IsNewer(latest, current), false, "");
    r := r.(major := r.newer && p.IsMajorBump(latest, current));
    if r.major {
      var line := SameLineUpdates(p, current, stable);
      SameLineMembers(p, current, stable);
      NewestMember(p, line);
      var v := FindNewest(p, line);
      if v != "" {
        r := r.(sameMajor := byVersion[v]);
      }
    }
  }

  lemma CollectOne(p: Policy, tags: seq<string>, i: nat)
    requires i < |tags|
    ensures var v := p.versionOf(tags[i]);
            && StableVersions(p, tags[i..]) == (if p.Usable(v) then [v] else []) + StableVersions(p, tags[i + 1..])
            && ByVersion(p, tags[i..]) == (if p.Usable(v) then map[v := tags[i]] else map[]) + ByVersion(p, tags[i + 1..])
  {
    assert tags[i..][1..] == tags[i + 1..];
  }

  lemma Shift(s: seq<string>, v: string, s': seq<string>, m: map<string, string>, t: string, m': map<string, string>)
    ensures s + ([v] + s') == s + [v] + s' && m + (map[v := t] + m') == m[v := t] + m'
    ensures s + ([] + s') == s + s' && m + (map[] + m') == m + m'
  {
  }

  /** The loop that fills `byVersion` and `stable`. */
  method CollectStable(p: Policy, tags: seq<string>) returns (byVersion: map<string, string>, stable: seq<string>)
    ensures byVersion == ByVersion(p, tags) && stable == StableVersions(p, tags)
  {
    byVersion, stable := map[], [];
    assert tags[0..] == tags;
    for i := 0 to |tags|
      invariant stable + StableVersions(p, tags[i..]) == StableVersions(p, tags)
      invariant byVersion + ByVersion(p, tags[i..]) == ByVersion(p, tags)
    {
      var v := p.versionOf(tags[i]);
      CollectOne(p, tags, i);
      Shift(stable, v, StableVersions(p, tags[i + 1..]), byVersion, tags[i], ByVersion(p, tags[i + 1..]));
      hide *;
      if p.Usable(v) {
        byVersion := byVersion[v := tags[i]];
        stable := stable + [v];
      }
    }
    assert tags[|tags|..] == [];
  }

  // ---- What a pick means ----

  /** The tags that carry a stable version newer than the pin. */
  ghost function Updates(p: Policy, currentTag: string, tags: seq<string>): set<string> {
    set t | t in tags && p.versionOf(t) != "" && p.stable(p.versionOf(t))
            && p.IsNewer(p.versionOf(t), p.CurrentVersion(currentTag))
  }

  /** Those of the pin's own release line. */
  ghost function LineUpdates(p: Policy, currentTag: string, tags: seq<string>): set<string> {
    set t | t in Updates(p, currentTag, tags) && p.SameLine(p.versionOf(t), p.CurrentVersion(currentTag))
  }

  /** One of `ts`, and none of them is newer. */
  ghost predicate NewestOf(p: Policy, ts: set<string>, t: string) {
    t in ts && forall u :: u in ts ==> !p.IsNewer(p.versionOf(u), p.versionOf(t))
  }

  lemma UpdatesAreStable(p: Policy, currentTag: string, tags: seq<string>)
    ensures forall t :: t in Updates(p, currentTag, tags) ==> p.versionOf(t) in StableVersions(p, tags)
  {
    ByVersionInverts(p, tags);
  }

  /** The latest tag is an update if there is one, the best there is, and a major exactly when it leaves the line. */
  lemma PickNewest(p: Policy, currentTag: string, tags: seq<string>)
    ensures var r, updates := PickSpec(p, currentTag, tags), Updates(p, currentTag, tags);
            && (r.newer <==> updates != {})
            && (r.newer ==> NewestOf(p, updates, r.latest))
            && (r.major <==> r.newer && r.latest !in LineUpdates(p, currentTag, tags))
  {
    var vs, r, current := StableVersions(p, tags), PickSpec(p, currentTag, tags), p.CurrentVersion(currentTag);
    var latest := Newest(p, vs);
    ByVersionInverts(p, tags);
    NewestMember(p, vs);
    UpdatesAreStable(p, currentTag, tags);
    if latest != "" { MajorBumpLeavesLine(p, latest, current); }
    if r.newer { assert r.latest in Updates(p, currentTag, tags); }
  }

  /** Behind a major, the same-line tag is the best update of that line, and there whenever there is one. */
  lemma PickSameMajor(p: Policy, currentTag: string, tags: seq<string>)
    requires p.versionOf("") == ""
    ensures var r, updates := PickSpec(p, currentTag, tags), LineUpdates(p, currentTag, tags);
            && (r.sameMajor != "" ==> r.major && NewestOf(p, updates, r.sameMajor))
            && (r.major && updates != {} ==> r.sameMajor != "")
  {
    var vs, r, current := StableVersions(p, tags), PickSpec(p, currentTag, tags), p.CurrentVersion(currentTag);
    if r.major {
      var line := SameLineUpdates(p, current, vs);
      ByVersionInverts(p, tags);
      SameLineMembers(p, current, vs);
      NewestMember(p, line);
      UpdatesAreStable(p, currentTag, tags);
      forall t | t in LineUpdates(p, currentTag, tags) ensures p.versionOf(t) in line {
        MajorBumpLeavesLine(p, p.versionOf(t), current);
      }
      var v := Newest(p, line);
      if v != "" { MajorBumpLeavesLine(p, v, current); }
    }
  }
}
