/** Which results are applied to the image table, and why a second run finds nothing to do. */
module ImageTable {
  import opened Options
  import opened Sequences
  import opened Versions

  type Chain = string
  type Client = string
  type Images = map<Chain, map<Client, string>>

  // ---- Image references ----

  /** The index of the last `c`, or -1. */
  function LastIndex(s: string, c: char): (i: int)
    ensures -1 <= i < |s|
    ensures i >= 0 ==> s[i] == c
    ensures forall j :: i < j < |s| ==> s[j] != c
  {
    if s == "" then -1
    else if s[|s| - 1] == c then |s| - 1
    else LastIndex(s[..|s| - 1], c)
  }

  function ParseTag(ref: string): string {
    if LastIndex(ref, ':') >= 0 then ref[LastIndex(ref, ':') + 1..] else ref
  }

  function ReplaceTag(ref: string, tag: string): string {
    if LastIndex(ref, ':') >= 0 then ref[..LastIndex(ref, ':') + 1] + tag else ref + ":" + tag
  }

  /** The part before a digest. */
  function Named(ref: string): string {
    if ref == "" || ref[0] == '@' then "" else [ref[0]] + Named(ref[1..])
  }

  /** A colon is a tag's only after the last slash; before it, it is a registry port's. */
  function Repository(ref: string): string {
    var name := Named(ref);
    if LastIndex(name, ':') > LastIndex(name, '/') then name[..LastIndex(name, ':')] else name
  }

  lemma LastIndexAt(s: string, i: nat, c: char)
    requires i < |s| && s[i] == c && forall j :: i < j < |s| ==> s[j] != c
    ensures LastIndex(s, c) == i
  {
  }

  /** The tag written is the tag read back, exactly for tags without a colon. */
  lemma {:induction false} ReplaceThenParse(ref: string, tag: string)
    ensures ParseTag(ReplaceTag(ref, tag)) == tag <==> ':' !in tag
  {
    var head := if LastIndex(ref, ':') >= 0 then ref[..LastIndex(ref, ':') + 1] else ref + ":";
    var moved := ReplaceTag(ref, tag);
    assert moved == head + tag && head[|head| - 1] == ':';
    if ':' !in tag { LastIndexAt(moved, |head| - 1, ':'); }
    hide LastIndex, ReplaceTag;
    assert moved[|head|..] == tag;
    assert ':' !in ParseTag(moved);
  }

  lemma {:induction false} NamedPrefix(ref: string)
    ensures Named(ref) <= ref && '@' !in Named(ref)
    ensures Named(ref) == ref || (|Named(ref)| < |ref| && ref[|Named(ref)|] == '@')
  {
    if ref != "" && ref[0] != '@' { NamedPrefix(ref[1..]); }
  }

  /**
   The new reference is the old repository with the new tag, exactly when the last colon
   of the old one is a tag's: after the last slash of its name, not in a digest, and if
   there is none there is no digest either.
   */
  lemma {:induction false} ReplaceKeepsRepository(ref: string, tag: string)
    ensures ReplaceTag(ref, tag) == Repository(ref) + ":" + tag <==>
              var c, name := LastIndex(ref, ':'), Named(ref);
              if c == -1 then name == ref else LastIndex(name, '/') < c < |name|
  {
    Replaced(ref, tag);
    ColonOfTag(ref);
    hide *;
    Associate(Repository(ref), ":", tag);
    SameHead(Head(ref), Repository(ref), ":" + tag);
  }

  /** What `replaceTag` keeps. */
  function Head(ref: string): string { if LastIndex(ref, ':') >= 0 then ref[..LastIndex(ref, ':')] else ref }

  lemma Replaced(ref: string, tag: string)
    ensures ReplaceTag(ref, tag) == Head(ref) + (":" + tag)
  {
    hide LastIndex;
  }

  lemma {:induction false} ColonOfTag(ref: string)
    ensures Head(ref) == Repository(ref) <==>
              var c, name := LastIndex(ref, ':'), Named(ref);
              if c == -1 then name == ref else LastIndex(name, '/') < c < |name|
  {
    hide LastIndex, Named;
    var c, name := LastIndex(ref, ':'), Named(ref);
    NamedPrefix(ref);
    if 0 <= c < |name| {
      assert forall j :: c < j < |name| ==> name[j] == ref[j];
      LastIndexAt(name, c, ':');
      assert name[..c] == ref[..c];
    } else if c == -1 && name != ref {
      assert |Repository(ref)| < |ref|;
    }
  }

  lemma {:induction false} NamedBefore(name: string, digest: string)
    requires '@' !in name
    ensures Named(name + ("@" + digest)) == name
  {
    var ref := name + ("@" + digest);
    if name == "" {
      assert ref[0] == '@';
    } else {
      assert ref[0] == name[0] && ref[1..] == name[1..] + ("@" + digest);
      NamedBefore(name[1..], digest);
    }
  }

  /** A registry port and a digest are taken for tags: neither result names the old repository. */
  lemma {:induction false} ReplaceLosesRepository()
    ensures Repository("host:5000/img") == "host:5000/img" && ReplaceTag("host:5000/img", "v2") == "host:v2"
    ensures Repository("img@sha256:ab") == "img" && ReplaceTag("img@sha256:ab", "v2") == "img@sha256:v2"
  {
    var port, digest := "host:5000/img", "img@sha256:ab";
    hide LastIndex, Named;
    LastIndexAt(port, 4, ':');
    LastIndexAt(port, 9, '/');
    NamedPrefix(port);
    assert '@' !in port && port[..5] == "host:";
    LastIndexAt(digest, 10, ':');
    assert digest == "img" + ("@" + "sha256:ab") && digest[..11] == "img@sha256:";
    NamedBefore("img", "sha256:ab");
    assert ':' !in "img" && '/' !in "img";
  }

  // ---- Results ----

  /** One chain or client to check; `answer` is what its registry lists, None on an error. */
  datatype Item = Item(chain: Chain, client: Client, policy: Policy, answer: Option<seq<string>>) {
    function Listed(): seq<string> { if answer.Some? then answer.value else [] }
  }

  datatype Result = Result(
    chain: Chain, client: Client, currentTag: string, latest: string, newer: bool, major: bool, sameMajor: string)

  /** The entry `DefaultImageFor` reads: the client's in lower case, or the chain's own. */
  function KeyFor(images: Images, chain: Chain, client: Client, lower: Client -> Client): Option<Client> {
    if chain !in images then None
    else if lower(client) in images[chain] then Some(lower(client))
    else if "" in images[chain] then Some("")
    else None
  }

  function ImageFor(images: Images, chain: Chain, client: Client, lower: Client -> Client): string {
    var key := KeyFor(images, chain, client, lower);
    if key.Some? then images[chain][key.value] else ""
  }

  function CheckOne(it: Item, tag: string): Result {
    match it.answer
    case None => Result(it.chain, it.client, tag, "", false, false, "")
    case Some(tags) =>
      var p := PickSpec(it.policy, tag, tags);
      Result(it.chain, it.client, tag, p.latest, p.newer, p.major, p.sameMajor)
  }

  function Check(images: Images, its: seq<Item>, lower: Client -> Client): seq<Result> {
    if its == [] then []
    else [CheckOne(its[0], ParseTag(ImageFor(images, its[0].chain, its[0].client, lower)))]
         + Check(images, its[1..], lower)
  }

  /** What `filterNewer` makes of one result: the tag to apply, if any. */
  function Selection(r: Result, allowMajor: bool): Option<string> {
    if !r.newer then None
    else if !r.major || allowMajor then Some(r.latest)
    else if r.sameMajor != "" then Some(r.sameMajor)
    else None
  }

  function Filter(rs: seq<Result>, allowMajor: bool): seq<Result> {
    if rs == [] then []
    else
      var s := Selection(rs[0], allowMajor);
      (if s.Some? then [rs[0].(latest := s.value)] else []) + Filter(rs[1..], allowMajor)
  }

  method FilterNewer(rs: seq<Result>, allowMajor: bool) returns (out: seq<Result>)
    ensures out == Filter(rs, allowMajor)
  {
    out := [];
    assert rs[0..] == rs;
    for i := 0 to |rs|
      invariant out + Filter(rs[i..], allowMajor) == Filter(rs, allowMajor)
    {
      var r := rs[i];
      FilterStep(rs, i, allowMajor, out);
      hide Filter;
      if !r.newer {
      } else if !r.major || allowMajor {
        out := out + [r];
      } else if r.sameMajor != "" {
        out := out + [r.(latest := r.sameMajor)];
      }
    }
    assert rs[|rs|..] == [];
  }

  lemma FilterStep(rs: seq<Result>, i: nat, allowMajor: bool, out: seq<Result>)
    requires i < |rs|
    ensures var s := Selection(rs[i], allowMajor);
            out + Filter(rs[i..], allowMajor)
            == (if s.Some? then out + [rs[i].(latest := s.value)] else out) + Filter(rs[i + 1..], allowMajor)
  {
    assert rs[i..][1..] == rs[i + 1..];
  }

  function ApplyOne(images: Images, u: Result): Images {
    if u.chain in images && u.client in images[u.chain]
    then images[u.chain := images[u.chain][u.client := ReplaceTag(images[u.chain][u.client], u.latest)]]
    else images
  }

  function Apply(images: Images, us: seq<Result>): Images {
    if us == [] then images else Apply(ApplyOne(images, us[0]), us[1..])
  }

  method ApplyUpdates(images: Images, us: seq<Result>) returns (out: Images)
    ensures out == Apply(images, us)
  {
    out := images;
    assert us[0..] == us;
    for i := 0 to |us|
      invariant Apply(out, us[i..]) == Apply(images, us)
    {
      assert us[i..][1..] == us[i + 1..];
      var u := us[i];
      if u.chain in out {
        var clients := out[u.chain];
        if u.client in clients {
          out := out[u.chain := clients[u.client := ReplaceTag(clients[u.client], u.latest)]];
        }
      }
    }
  }

  // ---- Selected tags ----

  /** The tag an update run moves a pin to. */
  function Target(it: Item, tag: string, allowMajor: bool): Option<string> {
    Selection(CheckOne(it, tag), allowMajor)
  }

  /**
   Whatever is applied is a stable tag of the registry, strictly newer than the
   pin and, unless majors are allowed, of the same release line; the newest such
   tag there is. And something is applied whenever there is such a tag, and
   nothing when the registry does not answer.
   */
  lemma TargetMeaning(it: Item, tag: string, allowMajor: bool)
    requires it.policy.versionOf("") == ""
    ensures var t, updates := Target(it, tag, allowMajor), Choices(it.policy, tag, it.Listed(), allowMajor);
            && (t.Some? <==> updates != {})
            && (t.Some? ==> NewestOf(it.policy, updates, t.value))
  {
    PickNewest(it.policy, tag, it.Listed());
    PickSameMajor(it.policy, tag, it.Listed());
    assert it.answer.None? ==> Updates(it.policy, tag, []) == {};
    hide PickSpec, Updates;
  }

  ghost function Choices(p: Policy, tag: string, tags: seq<string>, allowMajor: bool): set<string> {
    if allowMajor then Updates(p, tag, tags) else LineUpdates(p, tag, tags)
  }

  /** Once a pin has been moved, the same tags move it no further. */
  lemma TargetSettles(it: Item, tag: string, allowMajor: bool)
    requires it.policy.versionOf("") == ""
    ensures var t := Target(it, tag, allowMajor);
            t.Some? ==> Target(it, t.value, allowMajor) == None
  {
    var t, p := Target(it, tag, allowMajor), it.policy;
    if t.Some? {
      var tags := it.answer.value;
      TargetMeaning(it, tag, allowMajor);
      TargetMeaning(it, t.value, allowMajor);
      assert p.CurrentVersion(t.value) == p.versionOf(t.value);
      hide Target, PickSpec;
      assert forall u :: u in Updates(p, t.value, tags) ==> u in Updates(p, tag, tags);
      assert forall u :: u in Choices(p, t.value, tags, allowMajor) ==> u in Choices(p, tag, tags, allowMajor);
    }
  }

  // ---- A run and the next one ----

  function RunOnce(images: Images, its: seq<Item>, lower: Client -> Client, allowMajor: bool): Images {
    Apply(images, Filter(Check(images, its, lower), allowMajor))
  }

  function CurrentTag(images: Images, it: Item, lower: Client -> Client): string {
    ParseTag(ImageFor(images, it.chain, it.client, lower))
  }

  /** The pin of an item: behind the last colon of the client's image or, without one, of the chain's. */
  lemma PinRead(images: Images, it: Item, lower: Client -> Client, name: string, tag: string)
    ensures var clients := if it.chain in images then images[it.chain] else map[];
            var ref := if lower(it.client) in clients then clients[lower(it.client)]
                       else if "" in clients then clients[""] else "";
            && (':' !in ref ==> CurrentTag(images, it, lower) == ref)
            && (ref == name + ":" + tag && ':' !in tag ==> CurrentTag(images, it, lower) == tag)
  {
    var ref := ImageFor(images, it.chain, it.client, lower);
    if ref == name + ":" + tag && ':' !in tag {
      LastIndexAt(ref, |name|, ':');
    }
  }

  /** The tag a run writes to one entry of the table, found without running. */
  function Move(images: Images, its: seq<Item>, chain: Chain, key: Client, lower: Client -> Client, allowMajor: bool)
    : Option<string>
  {
    if its == [] then None
    else if its[0].chain == chain && its[0].client == key then
      Target(its[0], CurrentTag(images, its[0], lower), allowMajor)
    else Move(images, its[1..], chain, key, lower, allowMajor)
  }

  /** The tag an item is compared with on the next run. */
  function NextTag(images: Images, its: seq<Item>, it: Item, lower: Client -> Client, allowMajor: bool): string {
    var key := KeyFor(images, it.chain, it.client, lower);
    var moved := if key.Some? then Move(images, its, it.chain, key.value, lower, allowMajor) else None;
    if moved.Some? then moved.value else CurrentTag(images, it, lower)
  }

  /** The item is compared through the very entry that an update of it writes. */
  predicate Owned(images: Images, it: Item, lower: Client -> Client) {
    KeyFor(images, it.chain, it.client, lower) == Some(it.client)
  }

  ghost predicate Distinct(its: seq<Item>) {
    forall i, j :: 0 <= i < j < |its| ==> (its[i].chain, its[i].client) != (its[j].chain, its[j].client)
  }

  /** Image tags hold no colon; a policy finds no version in the empty tag. */
  ghost predicate WellTagged(it: Item) {
    && it.policy.versionOf("") == ""
    && (it.answer.Some? ==> forall t :: t in it.answer.value ==> ':' !in t)
  }

  ghost predicate SameKeys(a: Images, b: Images) {
    a.Keys == b.Keys && forall c :: c in a ==> a[c].Keys == b[c].Keys
  }

  lemma {:induction false} ApplyKeepsKeys(images: Images, us: seq<Result>)
    ensures SameKeys(images, Apply(images, us))
    decreases |us|
  {
    if us != [] { ApplyKeepsKeys(ApplyOne(images, us[0]), us[1..]); }
  }

  lemma {:induction false} NoMove(images: Images, its: seq<Item>, chain: Chain, key: Client,
                                  lower: Client -> Client, allowMajor: bool)
    requires forall i :: 0 <= i < |its| ==> (its[i].chain, its[i].client) != (chain, key)
    ensures Move(images, its, chain, key, lower, allowMajor) == None
  {
    if its != [] { NoMove(images, its[1..], chain, key, lower, allowMajor); }
  }

  lemma {:induction false} MoveOfItem(images: Images, its: seq<Item>, i: nat, lower: Client -> Client, allowMajor: bool)
    requires i < |its| && Distinct(its)
    ensures Move(images, its, its[i].chain, its[i].client, lower, allowMajor)
         == Target(its[i], CurrentTag(images, its[i], lower), allowMajor)
  {
    hide Target, CurrentTag;
    if i > 0 {
      assert (its[0].chain, its[0].client) != (its[i].chain, its[i].client);
      MoveOfItem(images, its[1..], i - 1, lower, allowMajor);
    }
  }

  function Retagged(ref: string, moved: Option<string>): string {
    if moved.Some? then ReplaceTag(ref, moved.value) else ref
  }

  /** The results of a run, item by item. */
  lemma SelectOne(images: Images, its: seq<Item>, lower: Client -> Client, allowMajor: bool)
    requires its != []
    ensures var r := CheckOne(its[0], CurrentTag(images, its[0], lower));
            var t := Target(its[0], CurrentTag(images, its[0], lower), allowMajor);
            Filter(Check(images, its, lower), allowMajor)
            == (if t.Some? then [r.(latest := t.value)] else []) + Filter(Check(images, its[1..], lower), allowMajor)
  {
    hide CheckOne, ImageFor, Selection;
    var rs := Check(images, its, lower);
    assert rs[1..] == Check(images, its[1..], lower);
  }

  lemma ApplyFirst(cur: Images, u: Result, us: seq<Result>)
    ensures Apply(cur, [u] + us) == Apply(ApplyOne(cur, u), us)
    ensures [] + us == us
  {
    assert ([u] + us)[1..] == us;
  }

  /** The table once the first item of a run is done. */
  function Advance(images: Images, cur: Images, it: Item, lower: Client -> Client, allowMajor: bool): Images {
    var tag := CurrentTag(images, it, lower);
    var t := Target(it, tag, allowMajor);
    if t.Some? then ApplyOne(cur, CheckOne(it, tag).(latest := t.value)) else cur
  }

  lemma AdvanceFirst(images: Images, cur: Images, its: seq<Item>, lower: Client -> Client, allowMajor: bool)
    requires its != []
    ensures Apply(cur, Filter(Check(images, its, lower), allowMajor))
         == Apply(Advance(images, cur, its[0], lower, allowMajor), Filter(Check(images, its[1..], lower), allowMajor))
  {
    var tag := CurrentTag(images, its[0], lower);
    var t, r := Target(its[0], tag, allowMajor), CheckOne(its[0], tag);
    SelectOne(images, its, lower, allowMajor);
    ApplyFirst(cur, if t.Some? then r.(latest := t.value) else r, Filter(Check(images, its[1..], lower), allowMajor));
    hide Target, CurrentTag, CheckOne, Check, Filter, Apply, ApplyOne;
  }

  lemma AdvanceEntry(images: Images, cur: Images, it: Item, chain: Chain, key: Client,
                     lower: Client -> Client, allowMajor: bool)
    requires chain in cur && key in cur[chain]
    ensures var after := Advance(images, cur, it, lower, allowMajor);
            && chain in after && key in after[chain]
            && after[chain][key] == Retagged(cur[chain][key],
                 if it.chain == chain && it.client == key
                 then Target(it, CurrentTag(images, it, lower), allowMajor) else None)
  {
    var r := CheckOne(it, CurrentTag(images, it, lower));
    assert r.chain == it.chain && r.client == it.client;
    hide ReplaceTag, Target, CurrentTag, CheckOne;
  }

  lemma MoveFirst(images: Images, its: seq<Item>, chain: Chain, key: Client, lower: Client -> Client, allowMajor: bool)
    requires its != [] && Distinct(its)
    ensures Distinct(its[1..])
    ensures var rest := Move(images, its[1..], chain, key, lower, allowMajor);
            if its[0].chain == chain && its[0].client == key then
              && Move(images, its, chain, key, lower, allowMajor)
                 == Target(its[0], CurrentTag(images, its[0], lower), allowMajor)
              && rest == None
            else Move(images, its, chain, key, lower, allowMajor) == rest
  {
    hide Target, CurrentTag;
    if its[0].chain == chain && its[0].client == key {
      NoMove(images, its[1..], chain, key, lower, allowMajor);
    }
  }

  /** An entry changes by its own item's target, and by nothing else. */
  lemma {:induction false} ApplyMoves(images: Images, cur: Images, its: seq<Item>, chain: Chain, key: Client,
                                      lower: Client -> Client, allowMajor: bool)
    requires Distinct(its) && chain in cur && key in cur[chain]
    ensures var after := Apply(cur, Filter(Check(images, its, lower), allowMajor));
            && chain in after && key in after[chain]
            && after[chain][key] == Retagged(cur[chain][key], Move(images, its, chain, key, lower, allowMajor))
    decreases |its|
  {
    if its != [] {
      AdvanceFirst(images, cur, its, lower, allowMajor);
      AdvanceEntry(images, cur, its[0], chain, key, lower, allowMajor);
      MoveFirst(images, its, chain, key, lower, allowMajor);
      hide Target, CurrentTag, Check, Filter, Apply, Advance, ReplaceTag, Distinct, Move;
      ApplyMoves(images, Advance(images, cur, its[0], lower, allowMajor), its[1..], chain, key, lower, allowMajor);
    }
  }

  /** The item's own pin needs no update. */
  predicate UpToDate(images: Images, it: Item, lower: Client -> Client, allowMajor: bool) {
    Target(it, CurrentTag(images, it, lower), allowMajor) == None
  }

  lemma {:induction false} NothingSelected(images: Images, its: seq<Item>, lower: Client -> Client, allowMajor: bool)
    ensures Filter(Check(images, its, lower), allowMajor) == []
       <==> forall i :: 0 <= i < |its| ==> UpToDate(images, its[i], lower, allowMajor)
  {
    if its != [] {
      NothingSelected(images, its[1..], lower, allowMajor);
      SelectOne(images, its, lower, allowMajor);
      assert UpToDate(images, its[0], lower, allowMajor)
        <==> Target(its[0], CurrentTag(images, its[0], lower), allowMajor) == None;
      hide *;
      if Filter(Check(images, its[1..], lower), allowMajor) == [] {
        forall i | 0 < i < |its| ensures UpToDate(images, its[i], lower, allowMajor) {
          assert its[1..][i - 1] == its[i];
        }
      } else {
        var i :| 0 <= i < |its[1..]| && !UpToDate(images, its[1..][i], lower, allowMajor);
        assert its[i + 1] == its[1..][i];
      }
    }
  }

  lemma TargetHasNoColon(it: Item, tag: string, allowMajor: bool)
    requires WellTagged(it)
    ensures Target(it, tag, allowMajor).Some? ==> ':' !in Target(it, tag, allowMajor).value
  {
    if Target(it, tag, allowMajor).Some? { TargetMeaning(it, tag, allowMajor); }
  }

  lemma {:induction false} MoveHasNoColon(images: Images, its: seq<Item>, chain: Chain, key: Client,
                                          lower: Client -> Client, allowMajor: bool)
    requires forall i :: 0 <= i < |its| ==> WellTagged(its[i])
    ensures var m := Move(images, its, chain, key, lower, allowMajor); m.Some? ==> ':' !in m.value
  {
    hide Target;
    if its != [] {
      TargetHasNoColon(its[0], CurrentTag(images, its[0], lower), allowMajor);
      MoveHasNoColon(images, its[1..], chain, key, lower, allowMajor);
    }
  }

  /** `NextTag` foretells the tag that the next run reads. */
  lemma TagAfterRun(images: Images, its: seq<Item>, it: Item, lower: Client -> Client, allowMajor: bool)
    requires Distinct(its) && forall i :: 0 <= i < |its| ==> WellTagged(its[i])
    ensures CurrentTag(RunOnce(images, its, lower, allowMajor), it, lower) == NextTag(images, its, it, lower, allowMajor)
  {
    var after, key := RunOnce(images, its, lower, allowMajor), KeyFor(images, it.chain, it.client, lower);
    ApplyKeepsKeys(images, Filter(Check(images, its, lower), allowMajor));
    assert KeyFor(after, it.chain, it.client, lower) == key;
    if key.Some? {
      ApplyMoves(images, images, its, it.chain, key.value, lower, allowMajor);
      MoveHasNoColon(images, its, it.chain, key.value, lower, allowMajor);
      var m := Move(images, its, it.chain, key.value, lower, allowMajor);
      if m.Some? { ReplaceThenParse(images[it.chain][key.value], m.value); }
    }
  }

  /** An item with its own entry is settled by one run. */
  lemma OwnedSettles(images: Images, its: seq<Item>, i: nat, lower: Client -> Client, allowMajor: bool)
    requires i < |its| && Distinct(its) && WellTagged(its[i]) && Owned(images, its[i], lower)
    ensures Target(its[i], NextTag(images, its, its[i], lower, allowMajor), allowMajor) == None
  {
    MoveOfItem(images, its, i, lower, allowMajor);
    TargetSettles(its[i], CurrentTag(images, its[i], lower), allowMajor);
    hide Target, CurrentTag, Move;
  }

  /** The registry lists no update over the tag that the item is compared with next. */
  ghost predicate NothingBetter(images: Images, its: seq<Item>, it: Item, lower: Client -> Client, allowMajor: bool) {
    it.answer.Some? ==> Choices(it.policy, NextTag(images, its, it, lower, allowMajor), it.answer.value, allowMajor) == {}
  }

  /**
   A second run on the same tags selects nothing exactly when no item compared through
   another item's entry has an update over that entry's new tag.
   */
  lemma {:induction false} RunSettlesIff(images: Images, its: seq<Item>, lower: Client -> Client, allowMajor: bool)
    requires Distinct(its) && forall i :: 0 <= i < |its| ==> WellTagged(its[i])
    ensures Filter(Check(RunOnce(images, its, lower, allowMajor), its, lower), allowMajor) == []
       <==> forall i :: 0 <= i < |its| && !Owned(images, its[i], lower) ==>
              NothingBetter(images, its, its[i], lower, allowMajor)
  {
    var after := RunOnce(images, its, lower, allowMajor);
    NothingSelected(after, its, lower, allowMajor);
    forall i | 0 <= i < |its|
      ensures UpToDate(after, its[i], lower, allowMajor) <==> NothingBetter(images, its, its[i], lower, allowMajor)
      ensures Owned(images, its[i], lower) ==> UpToDate(after, its[i], lower, allowMajor)
    {
      TagAfterRun(images, its, its[i], lower, allowMajor);
      NoTargetIff(its[i], NextTag(images, its, its[i], lower, allowMajor), allowMajor);
      if Owned(images, its[i], lower) { OwnedSettles(images, its, i, lower, allowMajor); }
      hide Target, NextTag, Choices;
    }
    hide *;
  }

  lemma NoTargetIff(it: Item, tag: string, allowMajor: bool)
    requires WellTagged(it)
    ensures Target(it, tag, allowMajor) == None
       <==> (it.answer.Some? ==> Choices(it.policy, tag, it.answer.value, allowMajor) == {})
  {
    if it.answer.Some? {
      TargetMeaning(it, tag, allowMajor);
      hide Target, Choices;
    }
  }

  /** With an entry for every item, one run settles everything. */
  lemma AllOwnedSettle(images: Images, its: seq<Item>, lower: Client -> Client, allowMajor: bool)
    requires Distinct(its) && forall i :: 0 <= i < |its| ==> WellTagged(its[i]) && Owned(images, its[i], lower)
    ensures Filter(Check(RunOnce(images, its, lower, allowMajor), its, lower), allowMajor) == []
  {
    RunSettlesIff(images, its, lower, allowMajor);
    hide Filter, Check, RunOnce, NothingBetter;
  }

  // ---- Items without an entry of their own ----

  lemma {:induction false} SelectedAppend(images: Images, a: seq<Item>, b: seq<Item>, lower: Client -> Client, allowMajor: bool)
    ensures Filter(Check(images, a + b, lower), allowMajor)
         == Filter(Check(images, a, lower), allowMajor) + Filter(Check(images, b, lower), allowMajor)
  {
    if a == [] {
      assert a + b == b;
    } else {
      assert (a + b)[1..] == a[1..] + b;
      SelectOne(images, a + b, lower, allowMajor);
      SelectOne(images, a, lower, allowMajor);
      SelectedAppend(images, a[1..], b, lower, allowMajor);
      hide *;
      var tag := CurrentTag(images, a[0], lower);
      var t := Target(a[0], tag, allowMajor);
      Associate(if t.Some? then [CheckOne(a[0], tag).(latest := t.value)] else [],
                Filter(Check(images, a[1..], lower), allowMajor), Filter(Check(images, b, lower), allowMajor));
    }
  }

  lemma {:induction false} ApplyAppend(images: Images, us: seq<Result>, vs: seq<Result>)
    ensures Apply(images, us + vs) == Apply(Apply(images, us), vs)
    decreases |us|
  {
    hide ApplyOne;
    if us == [] {
      assert us + vs == vs;
    } else {
      assert (us + vs)[1..] == us[1..] + vs;
      ApplyAppend(ApplyOne(images, us[0]), us[1..], vs);
    }
  }

  /** What a run selects for one item alone: at most one result, which writes to the item's own entry. */
  lemma OnlyOwnEntry(images: Images, it: Item, lower: Client -> Client, allowMajor: bool)
    ensures var us := Filter(Check(images, [it], lower), allowMajor);
            us == [] || (|us| == 1 && us[0].chain == it.chain && us[0].client == it.client)
  {
    SelectOne(images, [it], lower, allowMajor);
    var r := CheckOne(it, CurrentTag(images, it, lower));
    assert r.chain == it.chain && r.client == it.client;
    assert Check(images, [it][1..], lower) == [];
    hide CheckOne, Target, CurrentTag;
  }

  /** An item without an entry of its own makes no difference to what a run writes. */
  lemma FallbackNeverMoves(images: Images, before: seq<Item>, it: Item, after: seq<Item>, lower: Client -> Client,
                           allowMajor: bool)
    requires it.chain in images ==> it.client !in images[it.chain]
    ensures RunOnce(images, before + [it] + after, lower, allowMajor) == RunOnce(images, before + after, lower, allowMajor)
  {
    var first, own := Filter(Check(images, before, lower), allowMajor), Filter(Check(images, [it], lower), allowMajor);
    var last := Filter(Check(images, after, lower), allowMajor);
    var cur := Apply(images, first);
    SelectedAppend(images, before, [it], lower, allowMajor);
    SelectedAppend(images, before + [it], after, lower, allowMajor);
    SelectedAppend(images, before, after, lower, allowMajor);
    ApplyKeepsKeys(images, first);
    OnlyOwnEntry(images, it, lower, allowMajor);
    assert Apply(cur, own) == cur by {
      hide Filter, Check;
      if own != [] { ApplyFirst(cur, own[0], []); }
      assert own != [] ==> own == [own[0]] + [] && ApplyOne(cur, own[0]) == cur;
    }
    ApplyAppend(images, first, own);
    ApplyAppend(images, first + own, last);
    ApplyAppend(images, first, last);
    hide Apply, Filter, Check;
  }

  /** Every item that has an entry of its own is compared through it; so it is with keys in lower case. */
  ghost predicate WritersOwn(images: Images, its: seq<Item>, lower: Client -> Client) {
    forall i :: 0 <= i < |its| && its[i].chain in images && its[i].client in images[its[i].chain] ==>
      Owned(images, its[i], lower)
  }

  lemma EntrySettles(images: Images, its: seq<Item>, chain: Chain, key: Client, lower: Client -> Client, allowMajor: bool)
    requires Distinct(its) && forall i :: 0 <= i < |its| ==> WellTagged(its[i])
    requires forall i :: 0 <= i < |its| && (its[i].chain, its[i].client) == (chain, key) ==> Owned(images, its[i], lower)
    ensures Move(RunOnce(images, its, lower, allowMajor), its, chain, key, lower, allowMajor) == None
  {
    var after := RunOnce(images, its, lower, allowMajor);
    if i :| 0 <= i < |its| && (its[i].chain, its[i].client) == (chain, key) {
      assert Owned(images, its[i], lower);
      OwnedSettles(images, its, i, lower, allowMajor);
      TagAfterRun(images, its, its[i], lower, allowMajor);
      MoveOfItem(after, its, i, lower, allowMajor);
    } else {
      NoMove(after, its, chain, key, lower, allowMajor);
    }
    hide *;
  }

  lemma RunKeepsKeys(images: Images, its: seq<Item>, lower: Client -> Client, allowMajor: bool)
    ensures SameKeys(images, RunOnce(images, its, lower, allowMajor))
  {
    ApplyKeepsKeys(images, Filter(Check(images, its, lower), allowMajor));
  }

  lemma SameTable(a: Images, b: Images)
    requires SameKeys(a, b) && forall c, k | c in a && k in a[c] :: a[c][k] == b[c][k]
    ensures a == b
  {
    forall c | c in a ensures a[c] == b[c] {}
  }

  /** With such items one run settles the table. */
  lemma TableSettles(images: Images, its: seq<Item>, lower: Client -> Client, allowMajor: bool)
    requires Distinct(its) && WritersOwn(images, its, lower) && forall i :: 0 <= i < |its| ==> WellTagged(its[i])
    ensures var after := RunOnce(images, its, lower, allowMajor);
            RunOnce(after, its, lower, allowMajor) == after
  {
    var after := RunOnce(images, its, lower, allowMajor);
    var again := RunOnce(after, its, lower, allowMajor);
    RunKeepsKeys(images, its, lower, allowMajor);
    RunKeepsKeys(after, its, lower, allowMajor);
    forall c, k | c in after && k in after[c] ensures after[c][k] == again[c][k] {
      EntrySettles(images, its, c, k, lower, allowMajor);
      ApplyMoves(after, after, its, c, k, lower, allowMajor);
      hide Apply, Filter, Check, Move;
    }
    hide RunOnce, WritersOwn;
    SameTable(after, again);
  }

  function Runs(images: Images, its: seq<Item>, lower: Client -> Client, allowMajor: bool, n: nat): Images {
    if n == 0 then images else RunOnce(Runs(images, its, lower, allowMajor, n - 1), its, lower, allowMajor)
  }

  /** What the second run selects is selected by every run after it, and no longer changes anything. */
  lemma {:induction false} SelectedForEver(images: Images, its: seq<Item>, lower: Client -> Client, allowMajor: bool, n: nat)
    requires Distinct(its) && WritersOwn(images, its, lower) && forall i :: 0 <= i < |its| ==> WellTagged(its[i])
    requires n >= 1
    ensures Runs(images, its, lower, allowMajor, n) == RunOnce(images, its, lower, allowMajor)
    ensures Check(Runs(images, its, lower, allowMajor, n), its, lower)
         == Check(RunOnce(images, its, lower, allowMajor), its, lower)
  {
    hide RunOnce, WritersOwn, Check;
    if n == 1 {
      assert Runs(images, its, lower, allowMajor, 0) == images;
    } else {
      SelectedForEver(images, its, lower, allowMajor, n - 1);
      TableSettles(images, its, lower, allowMajor);
    }
  }

  // ---- Entries under other keys ----

  /** What is used of `strings.ToLower`. */
  ghost predicate LowerCase(lower: Client -> Client) {
    lower("") == "" && forall k :: lower(lower(k)) == lower(k)
  }

  /** The entry an item is compared through does not change in a second run. */
  lemma TagSettles(images: Images, its: seq<Item>, it: Item, lower: Client -> Client, allowMajor: bool)
    requires Distinct(its) && LowerCase(lower) && forall i :: 0 <= i < |its| ==> WellTagged(its[i])
    ensures var after := RunOnce(images, its, lower, allowMajor);
            CurrentTag(RunOnce(after, its, lower, allowMajor), it, lower) == CurrentTag(after, it, lower)
  {
    var after, key := RunOnce(images, its, lower, allowMajor), KeyFor(images, it.chain, it.client, lower);
    ApplyKeepsKeys(images, Filter(Check(images, its, lower), allowMajor));
    assert KeyFor(after, it.chain, it.client, lower) == key;
    TagAfterRun(after, its, it, lower, allowMajor);
    if key.Some? {
      assert lower(key.value) == key.value && key.value in images[it.chain];
      EntrySettles(images, its, it.chain, key.value, lower, allowMajor);
    }
    hide RunOnce, CurrentTag, Move;
  }

  lemma RetaggedTwice(ref: string, moved: Option<string>)
    requires moved.Some? ==> ':' !in moved.value
    ensures Retagged(Retagged(ref, moved), moved) == Retagged(ref, moved)
  {
    if moved.Some? {
      Replaced(ref, moved.value);
      var head, retagged := Head(ref), ReplaceTag(ref, moved.value);
      hide LastIndex, ReplaceTag;
      assert retagged[|head|] == ':' && forall j :: |head| < j < |retagged| ==> retagged[j] == moved.value[j - |head| - 1];
      LastIndexAt(retagged, |head|, ':');
      Replaced(retagged, moved.value);
      assert retagged[..|head|] == head;
    }
  }

  lemma SecondMoveAgain(images: Images, its: seq<Item>, chain: Chain, key: Client, lower: Client -> Client, allowMajor: bool)
    requires Distinct(its) && LowerCase(lower) && forall i :: 0 <= i < |its| ==> WellTagged(its[i])
    ensures var after := RunOnce(images, its, lower, allowMajor);
            Move(RunOnce(after, its, lower, allowMajor), its, chain, key, lower, allowMajor)
            == Move(after, its, chain, key, lower, allowMajor)
  {
    var after := RunOnce(images, its, lower, allowMajor);
    if i :| 0 <= i < |its| && (its[i].chain, its[i].client) == (chain, key) {
      TagSettles(images, its, its[i], lower, allowMajor);
      MoveOfItem(after, its, i, lower, allowMajor);
      MoveOfItem(RunOnce(after, its, lower, allowMajor), its, i, lower, allowMajor);
    } else {
      NoMove(after, its, chain, key, lower, allowMajor);
      NoMove(RunOnce(after, its, lower, allowMajor), its, chain, key, lower, allowMajor);
    }
    hide *;
  }

  lemma EntrySettlesInTwo(images: Images, its: seq<Item>, c: Chain, k: Client, lower: Client -> Client, allowMajor: bool)
    requires Distinct(its) && LowerCase(lower) && forall i :: 0 <= i < |its| ==> WellTagged(its[i])
    requires c in images && k in images[c]
    ensures var two := RunOnce(RunOnce(images, its, lower, allowMajor), its, lower, allowMajor);
            var three := RunOnce(two, its, lower, allowMajor);
            c in two && k in two[c] && c in three && k in three[c] && three[c][k] == two[c][k]
  {
    var one := RunOnce(images, its, lower, allowMajor);
    ApplyMoves(images, images, its, c, k, lower, allowMajor);
    ApplyMoves(one, one, its, c, k, lower, allowMajor);
    var two := RunOnce(one, its, lower, allowMajor);
    ApplyMoves(two, two, its, c, k, lower, allowMajor);
    hide *;
    SecondMoveAgain(images, its, c, k, lower, allowMajor);
    MoveHasNoColon(one, its, c, k, lower, allowMajor);
    RetaggedTwice(one[c][k], Move(one, its, c, k, lower, allowMajor));
  }

  /** Whatever the keys of the table, two runs settle it. */
  lemma TableSettlesInTwo(images: Images, its: seq<Item>, lower: Client -> Client, allowMajor: bool)
    requires Distinct(its) && LowerCase(lower) && forall i :: 0 <= i < |its| ==> WellTagged(its[i])
    ensures var two := RunOnce(RunOnce(images, its, lower, allowMajor), its, lower, allowMajor);
            RunOnce(two, its, lower, allowMajor) == two
  {
    var one := RunOnce(images, its, lower, allowMajor);
    var two := RunOnce(one, its, lower, allowMajor);
    hide RunOnce, LowerCase, Distinct, WellTagged;
    RunKeepsKeys(images, its, lower, allowMajor);
    RunKeepsKeys(one, its, lower, allowMajor);
    RunKeepsKeys(two, its, lower, allowMajor);
    forall c, k | c in two && k in two[c] ensures two[c][k] == RunOnce(two, its, lower, allowMajor)[c][k] {
      EntrySettlesInTwo(images, its, c, k, lower, allowMajor);
    }
    SameTable(two, RunOnce(two, its, lower, allowMajor));
  }

  lemma {:induction false} SettledInTwo(images: Images, its: seq<Item>, lower: Client -> Client, allowMajor: bool, n: nat)
    requires Distinct(its) && LowerCase(lower) && forall i :: 0 <= i < |its| ==> WellTagged(its[i])
    requires n >= 2
    ensures Runs(images, its, lower, allowMajor, n) == Runs(images, its, lower, allowMajor, 2)
  {
    hide RunOnce, LowerCase;
    assert Runs(images, its, lower, allowMajor, 0) == images;
    assert Runs(images, its, lower, allowMajor, 1) == RunOnce(images, its, lower, allowMajor);
    if n > 2 {
      SettledInTwo(images, its, lower, allowMajor, n - 1);
      TableSettlesInTwo(images, its, lower, allowMajor);
    }
  }

  // ---- An update run that does not settle ----

  /** A chain "c" whose own image is up to date, and a client of it with a newer tag but no entry. */
  const STUCK_IMAGES: Images := map["c" := map["" := "r:v1"]]
  const STUCK_TAGS := ["v1", "v2"]

  function StuckPolicy(): Policy {
    Policy(t => t, _ => true, t => if t in STUCK_TAGS then Some(Version(1, |t|, t[1] as nat, 0.0)) else None)
  }

  function StuckItem(): Item { Item("c", "x", StuckPolicy(), Some(STUCK_TAGS)) }

  function StuckChain(): Item { Item("c", "", StuckPolicy(), Some(["v1"])) }

  lemma StuckItemsAre(lower: Client -> Client)
    requires lower("") == ""
    ensures WellTagged(StuckChain()) && WellTagged(StuckItem()) && Distinct([StuckChain(), StuckItem()])
    ensures Owned(STUCK_IMAGES, StuckChain(), lower)
    ensures StuckItem().chain in STUCK_IMAGES ==> StuckItem().client !in STUCK_IMAGES[StuckItem().chain]
  {
  }

  lemma StuckTag(it: Item, lower: Client -> Client)
    requires it.chain == "c" && lower("x") == "x" && lower("") == "" && it.client in {"", "x"}
    ensures CurrentTag(STUCK_IMAGES, it, lower) == "v1"
  {
    LastIndexAt("r:v1", 1, ':');
    assert "r:v1"[2..] == "v1";
  }

  lemma StuckSelected(lower: Client -> Client, allowMajor: bool)
    requires lower("x") == "x" && lower("") == ""
    ensures !UpToDate(STUCK_IMAGES, StuckItem(), lower, allowMajor)
  {
    StuckTag(StuckItem(), lower);
    assert "v2" in LineUpdates(StuckItem().policy, "v1", STUCK_TAGS) by {
      assert "v2" == STUCK_TAGS[1] && "v1" == STUCK_TAGS[0];
    }
    hide LineUpdates, Updates, CurrentTag;
    NoTargetIff(StuckItem(), "v1", allowMajor);
    assert "v2" in Updates(StuckItem().policy, "v1", STUCK_TAGS);
    hide Target;
  }

  lemma StuckChainUpToDate(lower: Client -> Client, allowMajor: bool)
    requires lower("x") == "x" && lower("") == ""
    ensures UpToDate(STUCK_IMAGES, StuckChain(), lower, allowMajor)
  {
    StuckTag(StuckChain(), lower);
    var p := StuckPolicy();
    assert forall t :: t in ["v1"] ==> t == "v1";
    assert Updates(p, "v1", ["v1"]) == {} && LineUpdates(p, "v1", ["v1"]) == {};
    hide LineUpdates, Updates, CurrentTag, StuckPolicy;
    NoTargetIff(StuckChain(), "v1", allowMajor);
    hide Target;
  }

  lemma StuckForEver(images: Images, own: Item, it: Item, lower: Client -> Client, allowMajor: bool, n: nat)
    requires n >= 1 && Distinct([own, it]) && WellTagged(own) && WellTagged(it) && Owned(images, own, lower)
    requires it.chain in images ==> it.client !in images[it.chain]
    requires UpToDate(images, own, lower, allowMajor) && !UpToDate(images, it, lower, allowMajor)
    ensures Runs(images, [own, it], lower, allowMajor, n) == images
    ensures Filter(Check(images, [own, it], lower), allowMajor) != []
  {
    var its := [own, it];
    assert WritersOwn(images, its, lower) by { hide Owned, UpToDate, WellTagged; }
    assert forall i :: 0 <= i < |its| ==> WellTagged(its[i]) by { hide *; }
    assert !UpToDate(images, its[1], lower, allowMajor);
    hide *;
    NothingSelected(images, its, lower, allowMajor);
    StuckUnwritten(images, own, it, lower, allowMajor);
    SelectedForEver(images, its, lower, allowMajor, n);
  }

  lemma StuckUnwritten(images: Images, own: Item, it: Item, lower: Client -> Client, allowMajor: bool)
    requires it.chain in images ==> it.client !in images[it.chain]
    requires UpToDate(images, own, lower, allowMajor)
    ensures RunOnce(images, [own, it], lower, allowMajor) == images
  {
    hide Target, UpToDate, Check, Filter;
    NothingSelected(images, [own], lower, allowMajor);
    FallbackNeverMoves(images, [own], it, [], lower, allowMajor);
    assert [own] + [it] + [] == [own, it] && [own] + [] == [own];
  }

  /** The client is selected by every run, and never written. */
  lemma {:induction false} FallbackStuck(lower: Client -> Client, allowMajor: bool, n: nat)
    requires n >= 1 && lower("x") == "x" && lower("") == ""
    ensures Runs(STUCK_IMAGES, [StuckChain(), StuckItem()], lower, allowMajor, n) == STUCK_IMAGES
    ensures Filter(Check(STUCK_IMAGES, [StuckChain(), StuckItem()], lower), allowMajor) != []
  {
    StuckSelected(lower, allowMajor);
    StuckChainUpToDate(lower, allowMajor);
    StuckItemsAre(lower);
    hide *;
    StuckForEver(STUCK_IMAGES, StuckChain(), StuckItem(), lower, allowMajor, n);
  }
}
