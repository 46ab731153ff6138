/** Reconciling the device/image catalog with an image manifest: discovered devices, compatibility rows
    and default images (scripts/backfill_device_image_catalog_db.py). */
module CatalogBackfill {
  import opened Wrappers

  /** A manifest image; strings are trimmed, and "" stands for a missing one. */
  datatype Entry = Entry(id: string, primary: string, compatible: seq<string>, scopes: seq<string>, isDefault: bool)

  /** The canonical id of a device, and of a default scope; "" for none. */
  datatype Canon = Canon(device: string -> string, scope: string -> string)

  datatype Default = Default(image: nat, fromManifest: bool)

  // ---- What a manifest asks for ----

  function DefaultScopes(e: Entry): seq<string> {
    if e.scopes == [] && e.isDefault && e.primary != "" then [e.primary] else e.scopes
  }

  /** The canonical forms of the names that have one. */
  function Canonical(names: seq<string>, canon: string -> string): set<string> {
    set d | d in names && canon(d) != "" :: canon(d)
  }

  lemma CanonicalOneMore(names: seq<string>, name: string, canon: string -> string)
    ensures Canonical(names + [name], canon)
         == Canonical(names, canon) + if canon(name) == "" then {} else {canon(name)}
  {
    assert forall d :: d in names + [name] <==> d in names || d == name;
  }

  function ScopeIds(e: Entry, canon: Canon): set<string> { Canonical(DefaultScopes(e), canon.scope) }

  /** The image for all of the devices. */
  function AllTo(devices: set<string>, image: string): map<string, string> { map d | d in devices :: image }

  lemma AllToOneMore(desired: map<string, string>, devices: set<string>, device: string, image: string)
    ensures desired + AllTo(devices + {device}, image) == (desired + AllTo(devices, image))[device := image]
    ensures desired + AllTo(devices + {}, image) == desired + AllTo(devices, image)
  {
    assert devices + {} == devices;
  }

  /** The devices the entry names as its own. */
  function NamedIds(e: Entry, canon: Canon): set<string> {
    set d | d in [e.primary] + e.compatible && d != "" && canon.device(d) != "" :: canon.device(d)
  }

  /** The devices an image is for: its own, and those it is to be the default of. */
  function Targets(e: Entry, canon: Canon): set<string> {
    NamedIds(e, canon) + ScopeIds(e, canon)
  }

  /** Per image id the targets of the last entry with that id. */
  function Wanted(entries: seq<Entry>, canon: Canon): map<string, set<string>> {
    if entries == [] then map[]
    else
      var e := entries[|entries| - 1];
      var before := Wanted(entries[..|entries| - 1], canon);
      if e.id == "" then before else before[e.id := Targets(e, canon)]
  }

  /** Per device the image id of the last entry that is to be its default. */
  function Desired(entries: seq<Entry>, canon: Canon): map<string, string> {
    if entries == [] then map[]
    else
      var e := entries[|entries| - 1];
      var before := Desired(entries[..|entries| - 1], canon);
      if e.id == "" then before else before + AllTo(ScopeIds(e, canon), e.id)
  }

  ghost predicate DistinctIds(entries: seq<Entry>) {
    forall i, j :: 0 <= i < j < |entries| && entries[i].id == entries[j].id ==> entries[i].id == ""
  }

  /** With distinct image ids what is wanted of an image is what its entry says. */
  lemma {:induction false} DistinctIdsWantTheirTargets(entries: seq<Entry>, canon: Canon, i: nat)
    requires DistinctIds(entries) && i < |entries| && entries[i].id != ""
    ensures entries[i].id in Wanted(entries, canon)
    ensures Wanted(entries, canon)[entries[i].id] == Targets(entries[i], canon)
  {
    if i < |entries| - 1 { DistinctIdsWantTheirTargets(entries[..|entries| - 1], canon, i); }
  }

  /** With distinct image ids every desired default is among the targets of its image. */
  lemma {:induction false} DistinctIdsDefaultsAreTargets(entries: seq<Entry>, canon: Canon)
    requires DistinctIds(entries)
    ensures forall d <- Desired(entries, canon) ::
              var x := Desired(entries, canon)[d]; x in Wanted(entries, canon) && d in Wanted(entries, canon)[x]
  {
    if entries != [] {
      var front := entries[..|entries| - 1];
      WantedAreEntries(front, canon);
      DistinctIdsDefaultsAreTargets(front, canon);
    }
  }

  lemma {:induction false} WantedAreEntries(entries: seq<Entry>, canon: Canon)
    ensures forall x <- Wanted(entries, canon) :: x != "" && exists i :: 0 <= i < |entries| && entries[i].id == x
    ensures Desired(entries, canon).Values <= Wanted(entries, canon).Keys
  {
    if entries != [] {
      WantedAreEntries(entries[..|entries| - 1], canon);
      forall x <- Wanted(entries, canon) ensures exists i :: 0 <= i < |entries| && entries[i].id == x {
        if x == entries[|entries| - 1].id {
        } else {
          var i :| 0 <= i < |entries| - 1 && entries[..|entries| - 1][i].id == x;
          assert entries[i].id == x;
        }
      }
    }
  }

  // ---- The catalog ----

  ghost predicate Injective(ids: map<string, nat>) {
    forall a, b :: a in ids && b in ids && ids[a] == ids[b] ==> a == b
  }

  predicate Below(ids: map<string, nat>, bound: nat) { forall a <- ids :: ids[a] < bound }

  ghost predicate Extends(was: map<string, nat>, now: map<string, nat>) {
    forall a <- was :: a in now && now[a] == was[a]
  }

  function IdsOf(devices: map<string, nat>, names: set<string>): set<nat>
    requires names <= devices.Keys
  {
    set c | c in names :: devices[c]
  }

  function Rows(compat: map<nat, set<nat>>, image: nat): set<nat> { if image in compat then compat[image] else {} }

  /** All compatibility rows, as pairs of image and device. */
  function AllRows(compat: map<nat, set<nat>>): set<(nat, nat)> { set i, d | i in compat && d in compat[i] :: (i, d) }

  /** The image is there, and its rows are the targets. */
  ghost predicate Fits(devices: map<string, nat>, images: map<string, nat>, compat: map<nat, set<nat>>, x: string,
                       targets: set<string>) {
    x in images && targets <= devices.Keys && images[x] in compat && compat[images[x]] == IdsOf(devices, targets)
  }

  /** The rows of every wanted image are its targets. */
  ghost predicate Matches(devices: map<string, nat>, images: map<string, nat>, compat: map<nat, set<nat>>,
                          wanted: map<string, set<string>>) {
    forall x <- wanted :: Fits(devices, images, compat, x, wanted[x])
  }

  /** The defaults are the desired ones, and no other. */
  ghost predicate DefaultsMatch(devices: map<string, nat>, images: map<string, nat>, defaults: map<nat, Default>,
                                desired: map<string, string>) {
    && (forall d <- desired :: desired[d] in images ==>
          d in devices && devices[d] in defaults && defaults[devices[d]] == Default(images[desired[d]], true))
    && (forall id <- defaults :: exists d :: d in desired && desired[d] in images && d in devices && devices[d] == id)
  }

  /** Every device's default image is compatible with it. */
  ghost predicate DefaultsCompatible(compat: map<nat, set<nat>>, defaults: map<nat, Default>) {
    forall id <- defaults :: id in Rows(compat, defaults[id].image)
  }

  ghost predicate Settled(devices: map<string, nat>, images: map<string, nat>, compat: map<nat, set<nat>>,
                          defaults: map<nat, Default>,
                          wanted: map<string, set<string>>, desired: map<string, string>) {
    && Matches(devices, images, compat, wanted) && DefaultsMatch(devices, images, defaults, desired)
    && desired.Values <= wanted.Keys
  }

  /** After a run, all defaults are compatible exactly when each desired default is among the targets of
      the last entry of its image: a repeated image id can break it, distinct ids cannot. */
  lemma DefaultsCompatibleIff(devices: map<string, nat>, images: map<string, nat>, compat: map<nat, set<nat>>,
                              defaults: map<nat, Default>,
                              wanted: map<string, set<string>>, desired: map<string, string>)
    requires Settled(devices, images, compat, defaults, wanted, desired) && Injective(devices)
    ensures DefaultsCompatible(compat, defaults) <==> forall d <- desired :: d in wanted[desired[d]]
  {
    forall d <- desired
      ensures devices[d] in defaults
      ensures (devices[d] in Rows(compat, defaults[devices[d]].image) <==> d in wanted[desired[d]])
    {
      var x := desired[d];
      assert x in desired.Values && x in images;
      assert devices[d] in IdsOf(devices, wanted[x]) <==> d in wanted[x];
    }
  }

  /** Two entries for one image, the first making it the default of a device the second leaves out. */
  function RepeatedId(device: string): seq<Entry> {
    [Entry("image", "", [], [device], false), Entry("image", "", [], [], false)]
  }

  lemma RepeatedIdWants(canon: Canon, device: string)
    requires canon.scope(device) != ""
    ensures Desired(RepeatedId(device), canon) == map[canon.scope(device) := "image"]
    ensures Wanted(RepeatedId(device), canon) == map["image" := {}]
  {
    var entries := RepeatedId(device);
    var first, second := entries[0], entries[1];
    assert entries[..1] == [first] && [first][..0] == [];
    assert ScopeIds(first, canon) == {canon.scope(device)} by {
      assert DefaultScopes(first) == [device] && device in [device];
    }
    assert ScopeIds(second, canon) == {} && Targets(second, canon) == {};
    assert Desired([first], canon) == map[canon.scope(device) := "image"];
    assert Wanted([first], canon) == map["image" := Targets(first, canon)];
  }

  /** Whatever the catalog, once it is settled for them the device's default is not compatible with it. */
  lemma RepeatedIdBreaksDefault(canon: Canon, device: string, devices: map<string, nat>, images: map<string, nat>,
                                compat: map<nat, set<nat>>, defaults: map<nat, Default>)
    requires canon.scope(device) != "" && Injective(devices)
    requires Settled(devices, images, compat, defaults, Wanted(RepeatedId(device), canon),
                     Desired(RepeatedId(device), canon))
    ensures !DefaultsCompatible(compat, defaults)
  {
    RepeatedIdWants(canon, device);
    var wanted, desired := Wanted(RepeatedId(device), canon), Desired(RepeatedId(device), canon);
    DefaultsCompatibleIff(devices, images, compat, defaults, wanted, desired);
    assert canon.scope(device) in desired && canon.scope(device) !in wanted["image"];
  }

  // ---- The reconciler ----

  function RowsOf(image: nat, ids: set<nat>): set<(nat, nat)> { set id | id in ids :: (image, id) }

  lemma {:induction false} RowsOfSize(image: nat, ids: set<nat>)
    ensures |RowsOf(image, ids)| == |ids|
  {
    if ids != {} {
      var id :| id in ids;
      RowsOfSize(image, ids - {id});
      assert RowsOf(image, ids) == RowsOf(image, ids - {id}) + {(image, id)};
    }
  }

  lemma RowsReplacedByDifference(compat: map<nat, set<nat>>, image: nat, ids: set<nat>)
    ensures AllRows(compat[image := ids]) - AllRows(compat) == RowsOf(image, ids - Rows(compat, image))
    ensures AllRows(compat) - AllRows(compat[image := ids]) == RowsOf(image, Rows(compat, image) - ids)
  {
  }

  /** Replacing the rows of one image adds and removes just the differences. */
  lemma RowsReplaced(compat: map<nat, set<nat>>, image: nat, ids: set<nat>)
    ensures |AllRows(compat[image := ids]) - AllRows(compat)| == |ids - Rows(compat, image)|
    ensures |AllRows(compat) - AllRows(compat[image := ids])| == |Rows(compat, image) - ids|
  {
    RowsReplacedByDifference(compat, image, ids);
    RowsOfSize(image, ids - Rows(compat, image));
    RowsOfSize(image, Rows(compat, image) - ids);
  }

  lemma BothDifferences<T>(was: set<T>, now: set<T>)
    ensures was + (now - was) - (was - now) == now
  {
  }

  /** Rows gained less rows lost is the change in size. */
  lemma SizeChange<T>(was: set<T>, now: set<T>)
    ensures |now| - |was| == |now - was| - |was - now|
  {
    assert was == (was - now) + (was * now) && now == (now - was) + (was * now);
  }

  /** The names added, with ids of their own; nothing happens to a map that has them all. */
  ghost predicate Grown(was: map<string, nat>, now: map<string, nat>, names: set<string>) {
    Extends(was, now) && now.Keys == was.Keys + names && (names <= was.Keys ==> now == was)
  }

  lemma GrownOneMore(was: map<string, nat>, mid: map<string, nat>, now: map<string, nat>, names: set<string>,
                     name: string)
    requires Grown(was, mid, names) && Grown(mid, now, {name})
    ensures Grown(was, now, names + {name})
    ensures IdsOf(now, names + {name}) == IdsOf(mid, names) + {now[name]}
  {
  }

  /** `wanted` is `desired` on the names `done`, in ids, without the missing images. */
  ghost predicate Resolved(devices: map<string, nat>, images: map<string, nat>, desired: map<string, string>,
                           done: set<string>, wanted: map<nat, nat>) {
    && done <= desired.Keys && done <= devices.Keys
    && wanted.Keys == IdsOf(devices, set d | d in done && desired[d] in images)
    && forall d <- done :: desired[d] in images ==> wanted[devices[d]] == images[desired[d]]
  }

  lemma ResolvedNone(devices: map<string, nat>, images: map<string, nat>, desired: map<string, string>)
    ensures Grown(devices, devices, {}) && IdsOf(devices, {}) == {} && Resolved(devices, images, desired, {}, map[])
  {
  }

  lemma ResolvedOneMore(was: map<string, nat>, devices: map<string, nat>, images: map<string, nat>,
                        desired: map<string, string>,
                        done: set<string>, wanted: map<nat, nat>, d: string)
    requires Resolved(was, images, desired, done, wanted) && Grown(was, devices, {d}) && Injective(devices)
    requires d in desired
    ensures Resolved(devices, images, desired, done + {d},
                     if desired[d] in images then wanted[devices[d] := images[desired[d]]] else wanted)
  {
    var present := set e | e in done && desired[e] in images;
    assert IdsOf(devices, present) == IdsOf(was, present);
    var present' := set e | e in done + {d} && desired[e] in images;
    assert present' == if desired[d] in images then present + {d} else present;
  }

  function FromManifest(wanted: map<nat, nat>): map<nat, Default> { map id | id in wanted :: Default(wanted[id], true) }

  /** The existing defaults that are not as wanted. */
  function Differing(defaults: map<nat, Default>, wanted: map<nat, nat>): set<nat> {
    set id | id in wanted && id in defaults && defaults[id] != Default(wanted[id], true)
  }

  /** The defaults that were there and are different now. */
  function Corrected(was: map<nat, Default>, now: map<nat, Default>): set<nat> {
    set id | id in was && id in now && now[id] != was[id]
  }

  /** The defaults once the devices `ids` have theirs. */
  function Put(was: map<nat, Default>, wanted: map<nat, nat>, ids: seq<nat>): map<nat, Default>
    requires forall id <- ids :: id in wanted
  {
    if ids == [] then was
    else
      var id := ids[|ids| - 1];
      Put(was, wanted, ids[..|ids| - 1])[id := Default(wanted[id], true)]
  }

  function Count(ids: seq<nat>, among: set<nat>): nat {
    if ids == [] then 0
    else Count(ids[..|ids| - 1], among) + if ids[|ids| - 1] in among then 1 else 0
  }

  ghost predicate Enumerates(ids: seq<nat>, s: set<nat>) {
    (forall id :: id in ids <==> id in s) && NoRepeats(ids)
  }

  lemma {:induction false} PutAt(was: map<nat, Default>, wanted: map<nat, nat>, ids: seq<nat>, id: nat)
    requires forall k <- ids :: k in wanted
    requires id in wanted
    ensures id in ids ==> id in Put(was, wanted, ids) && Put(was, wanted, ids)[id] == Default(wanted[id], true)
    ensures id !in ids ==>
              (id in Put(was, wanted, ids) <==> id in was) && (id in was ==> Put(was, wanted, ids)[id] == was[id])
  {
    if ids != [] { PutAt(was, wanted, ids[..|ids| - 1], id); }
  }

  lemma {:induction false} PutAll(was: map<nat, Default>, wanted: map<nat, nat>, ids: seq<nat>)
    requires forall k <- ids :: k in wanted
    ensures Put(was, wanted, ids) == was + map id | id in wanted && id in ids :: Default(wanted[id], true)
  {
    if ids != [] { PutAll(was, wanted, ids[..|ids| - 1]); }
  }

  function Common(ids: seq<nat>, among: set<nat>): set<nat> { set id | id in ids && id in among }

  lemma CommonOneMore(ids: seq<nat>, id: nat, among: set<nat>)
    requires id !in ids
    ensures |Common(ids + [id], among)| == |Common(ids, among)| + if id in among then 1 else 0
  {
    assert Common(ids + [id], among) == if id in among then Common(ids, among) + {id} else Common(ids, among);
    assert id !in Common(ids, among);
  }

  lemma {:induction false} CountIsSize(ids: seq<nat>, among: set<nat>)
    requires NoRepeats(ids)
    ensures Count(ids, among) == |Common(ids, among)|
  {
    if ids != [] {
      var front, last := ids[..|ids| - 1], ids[|ids| - 1];
      CountIsSize(front, among);
      CommonOneMore(front, last, among);
      assert ids == front + [last];
    }
  }

  lemma CountAll(ids: seq<nat>, s: set<nat>, among: set<nat>)
    requires Enumerates(ids, s) && among <= s
    ensures Count(ids, among) == |among|
  {
    CountIsSize(ids, among);
    assert Common(ids, among) == among;
  }

  lemma PutAndDrop(was: map<nat, Default>, wanted: map<nat, nat>, ids: seq<nat>)
    requires Enumerates(ids, wanted.Keys)
    ensures Put(was, wanted, ids) - (was.Keys - wanted.Keys) == FromManifest(wanted)
    ensures was.Keys - wanted.Keys <= Put(was, wanted, ids).Keys
  {
    PutAll(was, wanted, ids);
  }

  lemma PutCounts(was: map<nat, Default>, wanted: map<nat, nat>, ids: seq<nat>)
    requires Enumerates(ids, wanted.Keys)
    ensures FromManifest(wanted).Keys == wanted.Keys
    ensures Count(ids, wanted.Keys - was.Keys) == |FromManifest(wanted).Keys - was.Keys|
    ensures Count(ids, Differing(was, wanted)) == |Corrected(was, FromManifest(wanted))|
  {
    CountAll(ids, wanted.Keys, wanted.Keys - was.Keys);
    CountAll(ids, wanted.Keys, Differing(was, wanted));
    DifferingIsCorrected(was, wanted);
  }

  lemma DifferingIsCorrected(was: map<nat, Default>, wanted: map<nat, nat>)
    ensures FromManifest(wanted).Keys == wanted.Keys && Differing(was, wanted) == Corrected(was, FromManifest(wanted))
  {
  }

  /** The elements of a set in some order. */
  method Listed(s: set<nat>) returns (ids: seq<nat>)
    ensures Enumerates(ids, s)
  {
    ids := [];
    var todo := s;
    while todo != {}
      invariant todo <= s && Enumerates(ids, s - todo)
      decreases todo
    {
      var id :| id in todo;
      todo := todo - {id};
      ids := ids + [id];
    }
  }

  lemma ResolvedIsMatch(devices: map<string, nat>, images: map<string, nat>, desired: map<string, string>,
                        wanted: map<nat, nat>)
    requires Resolved(devices, images, desired, desired.Keys, wanted)
    ensures DefaultsMatch(devices, images, FromManifest(wanted), desired)
  {
    var present := set d | d in desired.Keys && desired[d] in images;
    forall id <- wanted ensures exists d :: d in desired && desired[d] in images && d in devices && devices[d] == id {
      var d :| d in present && devices[d] == id;
    }
  }

  lemma MatchesOneMore(devices: map<string, nat>, devices': map<string, nat>, images: map<string, nat>,
                       images': map<string, nat>,
                       compat: map<nat, set<nat>>, wanted: map<string, set<string>>, x: string, targets: set<string>)
    requires Matches(devices, images, compat, wanted) && Injective(images')
    requires Grown(images, images', {x}) && Grown(devices, devices', targets)
    ensures Matches(devices', images', compat[images'[x] := IdsOf(devices', targets)], wanted[x := targets])
  {
    forall y <- wanted | y != x
      ensures Fits(devices', images', compat[images'[x] := IdsOf(devices', targets)], y, wanted[y])
    {
      assert Fits(devices, images, compat, y, wanted[y]);
      assert IdsOf(devices', wanted[y]) == IdsOf(devices, wanted[y]);
    }
  }

  lemma FittingIsKept(devices: map<string, nat>, devices': map<string, nat>, images: map<string, nat>,
                      images': map<string, nat>,
                      compat: map<nat, set<nat>>, x: string, targets: set<string>)
    requires Grown(images, images', {x}) && Grown(devices, devices', targets)
    ensures Fits(devices, images, compat, x, targets) ==>
              var compat' := compat[images'[x] := IdsOf(devices', targets)];
              && devices' == devices && images' == images && compat' == compat
              && |AllRows(compat') - AllRows(compat)| == 0 && |AllRows(compat) - AllRows(compat')| == 0
  {
  }

  lemma WantedImagesExist(devices: map<string, nat>, images: map<string, nat>, compat: map<nat, set<nat>>,
                          wanted: map<string, set<string>>)
    requires Matches(devices, images, compat, wanted)
    ensures wanted.Keys <= images.Keys
  {
    forall x <- wanted ensures x in images { assert Fits(devices, images, compat, x, wanted[x]); }
  }

  /** With distinct image ids a settled catalog has no incompatible default. */
  lemma SettledIsCompatible(devices: map<string, nat>, images: map<string, nat>, compat: map<nat, set<nat>>,
                            defaults: map<nat, Default>,
                            entries: seq<Entry>, canon: Canon)
    requires DistinctIds(entries) && Injective(devices)
    requires Settled(devices, images, compat, defaults, Wanted(entries, canon), Desired(entries, canon))
    ensures DefaultsCompatible(compat, defaults)
  {
    DistinctIdsDefaultsAreTargets(entries, canon);
    DefaultsCompatibleIff(devices, images, compat, defaults, Wanted(entries, canon), Desired(entries, canon));
  }

  lemma MatchesGrown(devices: map<string, nat>, devices': map<string, nat>, images: map<string, nat>,
                     compat: map<nat, set<nat>>,
                     wanted: map<string, set<string>>, names: set<string>)
    requires Matches(devices, images, compat, wanted) && Grown(devices, devices', names)
    ensures Matches(devices', images, compat, wanted)
  {
    forall x <- wanted ensures Fits(devices', images, compat, x, wanted[x]) {
      assert Fits(devices, images, compat, x, wanted[x]);
      assert IdsOf(devices', wanted[x]) == IdsOf(devices, wanted[x]);
    }
  }

  /** Defaults that match already are the ones the next run arrives at. */
  lemma SettledAgain(devices: map<string, nat>, devices': map<string, nat>, images: map<string, nat>,
                     was: map<nat, Default>, now: map<nat, Default>, desired: map<string, string>)
    requires Grown(devices, devices', desired.Keys) && desired.Values <= images.Keys
    requires DefaultsMatch(devices', images, now, desired)
    ensures DefaultsMatch(devices, images, was, desired) ==>
              && devices' == devices && now == was
              && |now.Keys - was.Keys| == 0 && |was.Keys - now.Keys| == 0 && |Corrected(was, now)| == 0
  {
    if DefaultsMatch(devices, images, was, desired) {
      forall d <- desired ensures d in devices { assert desired[d] in desired.Values; }
      DefaultsDetermined(devices, images, was, now, desired);
      assert Corrected(was, now) == {} && now.Keys - was.Keys == {};
    }
  }

  function IdsIn(images: map<string, nat>, names: set<string>): set<nat> {
    set x | x in names && x in images :: images[x]
  }

  /** The rows of all images but the named ones are as they were. */
  ghost predicate KeptOutside(was: map<nat, set<nat>>, now: map<nat, set<nat>>, images: map<string, nat>,
                              names: set<string>) {
    now - IdsIn(images, names) == was - IdsIn(images, names)
  }

  lemma KeptOneMore(was: map<nat, set<nat>>, mid: map<nat, set<nat>>, now: map<nat, set<nat>>,
                    images0: map<string, nat>, images: map<string, nat>, wanted: map<string, set<string>>, x: string,
                    targets: set<string>)
    requires KeptOutside(was, mid, images0, wanted.Keys) && Extends(images0, images) && x in images
    requires images[x] in now && now == mid[images[x] := now[images[x]]]
    ensures KeptOutside(was, now, images, wanted[x := targets].Keys)
  {
    var ids0, ids := IdsIn(images0, wanted.Keys), IdsIn(images, wanted[x := targets].Keys);
    assert wanted[x := targets].Keys == wanted.Keys + {x} && ids0 + {images[x]} <= ids;
    assert now - {images[x]} == mid - {images[x]};
    MinusMore(mid, now, {images[x]}, ids);
    MinusMore(was, mid, ids0, ids);
  }

  lemma MinusMore(was: map<nat, set<nat>>, now: map<nat, set<nat>>, a: set<nat>, b: set<nat>)
    requires now - a == was - a && a <= b
    ensures now - b == was - b
  {
    assert now - b == (now - a) - b && was - b == (was - a) - b;
  }

  lemma DefaultsDetermined(devices: map<string, nat>, images: map<string, nat>, a: map<nat, Default>,
                           b: map<nat, Default>, desired: map<string, string>)
    requires DefaultsMatch(devices, images, a, desired) && DefaultsMatch(devices, images, b, desired)
    ensures a == b
  {
  }

  class CatalogBackfill {
    var devices: map<string, nat>
    var images: map<string, nat>
    var compat: map<nat, set<nat>>
    var defaults: map<nat, Default>
    var nextId: nat
    var compatCreated: nat
    var compatDeleted: nat
    var defaultsCreated: nat
    var defaultsUpdated: nat
    var defaultsDeleted: nat

    ghost predicate Valid()
      reads this
    {
      && Injective(devices) && Injective(images)
      && Below(devices, nextId) && Below(images, nextId)
    }

    /** Rows created less rows deleted, less the rows there are. */
    function Balance(): int
      reads this
    {
      compatCreated - compatDeleted - |AllRows(compat)|
    }

    /** The device, found or discovered (ensure_discovered_device). */
    method EnsureDevice(canonical: string) returns (id: nat)
      requires Valid()
      modifies this`devices, this`nextId
      ensures Valid() && Grown(old(devices), devices, {canonical}) && devices[canonical] == id
    {
      if canonical in devices { return devices[canonical]; }
      id := nextId;
      nextId := nextId + 1;
      devices := devices[canonical := id];
    }

    method EnsureImage(externalId: string) returns (id: nat)
      requires Valid()
      modifies this`images, this`nextId
      ensures Valid() && Grown(old(images), images, {externalId}) && images[externalId] == id
    {
      if externalId in images { return images[externalId]; }
      id := nextId;
      nextId := nextId + 1;
      images := images[externalId := id];
    }

    method EnsureOneMore(ghost was: map<string, nat>, ghost done: set<string>, c: string, ids: set<nat>)
      returns (ids': set<nat>)
      requires Valid() && Grown(was, devices, done) && ids == IdsOf(devices, done)
      modifies this`devices, this`nextId
      ensures Valid() && Grown(was, devices, done + {c}) && ids' == IdsOf(devices, done + {c})
    {
      ghost var mid := devices;
      var id := EnsureDevice(c);
      GrownOneMore(was, mid, devices, done, c);
      ids' := ids + {id};
    }

    method EnsureDevices(canonicals: set<string>) returns (ids: set<nat>)
      requires Valid()
      modifies this`devices, this`nextId
      ensures Valid() && Grown(old(devices), devices, canonicals) && ids == IdsOf(devices, canonicals)
    {
      ids := {};
      var todo := canonicals;
      ghost var done: set<string> := {};
      while todo != {}
        invariant todo + done == canonicals
        invariant Valid() && Grown(old(devices), devices, done) && ids == IdsOf(devices, done)
        decreases todo
      {
        var c :| c in todo;
        todo := todo - {c};
        ids := EnsureOneMore(old(devices), done, c, ids);
        done := done + {c};
      }
      assert done == canonicals;
    }

    method AddRows(existing: set<nat>, missing: set<nat>) returns (rows: set<nat>)
      requires existing !! missing
      modifies this`compatCreated
      ensures rows == existing + missing && compatCreated == old(compatCreated) + |missing|
    {
      rows := existing;
      var todo := missing;
      while todo != {}
        invariant rows + todo == existing + missing && compatCreated + |todo| == old(compatCreated) + |missing|
        decreases todo
      {
        var id :| id in todo;
        todo := todo - {id};
        rows := rows + {id};
        compatCreated := compatCreated + 1;
      }
    }

    method RemoveRows(existing: set<nat>, extra: set<nat>) returns (rows: set<nat>)
      modifies this`compatDeleted
      ensures rows == existing - extra && compatDeleted == old(compatDeleted) + |extra|
    {
      rows := existing;
      var todo := extra;
      while todo != {}
        invariant rows - todo == existing - extra && compatDeleted + |todo| == old(compatDeleted) + |extra|
        decreases todo
      {
        var id :| id in todo;
        todo := todo - {id};
        rows := rows - {id};
        compatDeleted := compatDeleted + 1;
      }
    }

    method ReplaceRows(image: nat, target: set<nat>)
      modifies this`compat, this`compatCreated, this`compatDeleted
      ensures compat == old(compat)[image := target]
      ensures compatCreated == old(compatCreated) + |target - Rows(old(compat), image)|
      ensures compatDeleted == old(compatDeleted) + |Rows(old(compat), image) - target|
    {
      var existing := Rows(compat, image);
      var rows := AddRows(existing, target - existing);
      rows := RemoveRows(rows, existing - target);
      BothDifferences(existing, target);
      compat := compat[image := rows];
    }

    /** set_image_compatibility: the image's rows become the targets; each row that is new is counted as
        created, each that is gone as deleted. */
    method SetImageCompatibility(image: nat, canonicals: set<string>)
      requires Valid()
      modifies this`devices, this`nextId, this`compat, this`compatCreated, this`compatDeleted
      ensures Valid() && Grown(old(devices), devices, canonicals)
      ensures compat == old(compat)[image := IdsOf(devices, canonicals)]
      ensures compatCreated - old(compatCreated) == |AllRows(compat) - AllRows(old(compat))|
      ensures compatDeleted - old(compatDeleted) == |AllRows(old(compat)) - AllRows(compat)|
      ensures Balance() == old(Balance())
    {
      ghost var was := AllRows(compat);
      var target := EnsureDevices(canonicals);
      RowsReplaced(compat, image, target);
      ReplaceRows(image, target);
      SizeChange(was, AllRows(compat));
    }

    ghost predicate Resolving(was: map<string, nat>, desired: map<string, string>, done: set<string>,
                              wanted: map<nat, nat>)
      reads this
    {
      Valid() && Grown(was, devices, done) && Resolved(devices, images, desired, done, wanted)
    }

    method ResolveOne(ghost was: map<string, nat>, ghost done: set<string>, desired: map<string, string>, d: string,
                      wanted: map<nat, nat>)
      returns (wanted': map<nat, nat>)
      requires Resolving(was, desired, done, wanted) && d in desired
      modifies this`devices, this`nextId
      ensures Resolving(was, desired, done + {d}, wanted')
    {
      ghost var mid := devices;
      var id := EnsureDevice(d);
      GrownOneMore(was, mid, devices, done, d);
      ResolvedOneMore(mid, devices, images, desired, done, wanted, d);
      wanted' := if desired[d] in images then wanted[id := images[desired[d]]] else wanted;
    }

    /** The first loop of set_defaults: which image is to be the default of which device. */
    method ResolveDefaults(desired: map<string, string>) returns (wanted: map<nat, nat>)
      requires Valid()
      modifies this`devices, this`nextId
      ensures Resolving(old(devices), desired, desired.Keys, wanted)
    {
      wanted := map[];
      ResolvedNone(devices, images, desired);
      ghost var was, done: set<string> := devices, {};
      var todo := desired.Keys;
      while todo != {}
        invariant todo + done == desired.Keys && Resolving(was, desired, done, wanted)
        decreases todo
      {
        var d :| d in todo;
        todo := todo - {d};
        wanted := ResolveOne(was, done, desired, d, wanted);
        done := done + {d};
      }
      assert done == desired.Keys;
    }

    /** The second loop of set_defaults: create what is missing, correct what differs. */
    method PutDefaults(wanted: map<nat, nat>, ids: seq<nat>)
      requires forall id <- ids :: id in wanted
      requires NoRepeats(ids)
      modifies this`defaults, this`defaultsCreated, this`defaultsUpdated
      ensures defaults == Put(old(defaults), wanted, ids)
      ensures defaultsCreated == old(defaultsCreated) + Count(ids, wanted.Keys - old(defaults).Keys)
      ensures defaultsUpdated == old(defaultsUpdated) + Count(ids, Differing(old(defaults), wanted))
    {
      ghost var was := defaults;
      for i := 0 to |ids|
        invariant defaults == Put(was, wanted, ids[..i])
        invariant defaultsCreated == old(defaultsCreated) + Count(ids[..i], wanted.Keys - was.Keys)
        invariant defaultsUpdated == old(defaultsUpdated) + Count(ids[..i], Differing(was, wanted))
      {
        var id := ids[i];
        assert ids[..i + 1][..i] == ids[..i] && id in ids;
        PutAt(was, wanted, ids[..i], id);
        if id !in defaults {
          defaults := defaults[id := Default(wanted[id], true)];
          defaultsCreated := defaultsCreated + 1;
        } else if defaults[id].image != wanted[id] || !defaults[id].fromManifest {
          defaults := defaults[id := Default(wanted[id], true)];
          defaultsUpdated := defaultsUpdated + 1;
        }
      }
      assert ids[..|ids|] == ids;
    }

    /** The third loop of set_defaults. */
    method DropDefaults(extra: set<nat>)
      requires extra <= defaults.Keys
      modifies this`defaults, this`defaultsDeleted
      ensures defaults == old(defaults) - extra && defaultsDeleted == old(defaultsDeleted) + |extra|
    {
      var todo := extra;
      while todo != {}
        invariant todo <= extra && todo <= defaults.Keys && defaults - todo == old(defaults) - extra
        invariant defaultsDeleted + |todo| == old(defaultsDeleted) + |extra|
        decreases todo
      {
        var id :| id in todo;
        todo := todo - {id};
        defaults := defaults - {id};
        defaultsDeleted := defaultsDeleted + 1;
      }
    }

    /** The defaults become the wanted ones, and each difference is counted once. */
    method ApplyDefaults(wanted: map<nat, nat>)
      modifies this`defaults, this`defaultsCreated, this`defaultsUpdated, this`defaultsDeleted
      ensures defaults == FromManifest(wanted)
      ensures defaultsCreated == old(defaultsCreated) + |defaults.Keys - old(defaults).Keys|
      ensures defaultsUpdated == old(defaultsUpdated) + |Corrected(old(defaults), defaults)|
      ensures defaultsDeleted == old(defaultsDeleted) + |old(defaults).Keys - defaults.Keys|
    {
      ghost var was := defaults;
      var extra := defaults.Keys - wanted.Keys;
      var ids := Listed(wanted.Keys);
      PutAndDrop(was, wanted, ids);
      PutCounts(was, wanted, ids);
      PutDefaults(wanted, ids);
      DropDefaults(extra);
    }

    /** set_defaults. */
    method SetDefaults(desired: map<string, string>)
      requires Valid()
      modifies this`devices, this`nextId, this`defaults, this`defaultsCreated,
               this`defaultsUpdated, this`defaultsDeleted
      ensures Valid() && Grown(old(devices), devices, desired.Keys)
      ensures DefaultsMatch(devices, images, defaults, desired)
      ensures defaultsCreated == old(defaultsCreated) + |defaults.Keys - old(defaults).Keys|
      ensures defaultsUpdated == old(defaultsUpdated) + |Corrected(old(defaults), defaults)|
      ensures defaultsDeleted == old(defaultsDeleted) + |old(defaults).Keys - defaults.Keys|
    {
      var wanted := ResolveDefaults(desired);
      ResolvedIsMatch(devices, images, desired, wanted);
      ApplyDefaults(wanted);
    }

    /** set_defaults where no image is missing: nothing happens to defaults that match already. */
    method SettleDefaults(desired: map<string, string>)
      requires Valid() && desired.Values <= images.Keys
      modifies this`devices, this`nextId, this`defaults, this`defaultsCreated,
               this`defaultsUpdated, this`defaultsDeleted
      ensures Valid() && Grown(old(devices), devices, desired.Keys) && DefaultsMatch(devices, images, defaults, desired)
      ensures old(DefaultsMatch(devices, images, defaults, desired)) ==>
                SameDefaults(old(devices), old(defaults), old(defaultsCreated),
                             old(defaultsUpdated), old(defaultsDeleted))
    {
      ghost var devices0, defaults0 := devices, defaults;
      SetDefaults(desired);
      SettledAgain(devices0, devices, images, defaults0, defaults, desired);
    }

    ghost predicate SameDefaults(devices0: map<string, nat>, defaults0: map<nat, Default>, created0: nat,
                                 updated0: nat, deleted0: nat)
      reads this
    {
      && devices == devices0 && defaults == defaults0
      && defaultsCreated == created0 && defaultsUpdated == updated0 && defaultsDeleted == deleted0
    }

    // ---- The whole run ----

    /** The loop over the default scopes of one entry: each becomes a target, and its default the image. */
    method AddScopes(e: Entry, canon: Canon, named: set<string>, desired: map<string, string>)
      returns (targets: set<string>, desired': map<string, string>)
      ensures targets == named + ScopeIds(e, canon)
      ensures desired' == desired + AllTo(ScopeIds(e, canon), e.id)
    {
      var scopes := DefaultScopes(e);
      targets, desired' := named, desired;
      for i := 0 to |scopes|
        invariant targets == named + Canonical(scopes[..i], canon.scope)
        invariant desired' == desired + AllTo(Canonical(scopes[..i], canon.scope), e.id)
      {
        CanonicalOneMore(scopes[..i], scopes[i], canon.scope);
        AllToOneMore(desired, Canonical(scopes[..i], canon.scope), canon.scope(scopes[i]), e.id);
        assert scopes[..i + 1] == scopes[..i] + [scopes[i]];
        var scope := canon.scope(scopes[i]);
        if scope == "" { continue; }
        targets := targets + {scope};
        desired' := desired'[scope := e.id];
      }
      assert scopes[..|scopes|] == scopes;
    }

    method SeedImage(e: Entry, targets: set<string>, canon: Canon, ghost wanted: map<string, set<string>>)
      requires Valid() && e.id != "" && targets == Targets(e, canon) && Matches(devices, images, compat, wanted)
      modifies this`devices, this`images, this`nextId, this`compat, this`compatCreated, this`compatDeleted
      ensures Valid() && Grown(old(images), images, {e.id}) && Grown(old(devices), devices, Targets(e, canon))
      ensures Matches(devices, images, compat, wanted[e.id := Targets(e, canon)])
      ensures compat == old(compat)[images[e.id] := IdsOf(devices, Targets(e, canon))]
      ensures Balance() == old(Balance())
      ensures old(Fits(devices, images, compat, e.id, Targets(e, canon))) ==>
                compat == old(compat) && compatCreated == old(compatCreated) && compatDeleted == old(compatDeleted)
    {
      ghost var devices0, images0, compat0 := devices, images, compat;
      var image := EnsureImage(e.id);
      SetImageCompatibility(image, targets);
      MatchesOneMore(devices0, devices, images0, images, compat0, wanted, e.id, targets);
      FittingIsKept(devices0, devices, images0, images, compat0, e.id, targets);
    }

    /** One entry with an id: its image gets its rows, and its default scopes are noted. */
    method SeedEntry(e: Entry, canon: Canon, desired: map<string, string>, ghost wanted: map<string, set<string>>,
                     ghost was: map<nat, set<nat>>)
      returns (desired': map<string, string>)
      requires Valid() && e.id != "" && Matches(devices, images, compat, wanted)
      requires KeptOutside(was, compat, images, wanted.Keys)
      modifies this`devices, this`images, this`nextId, this`compat, this`compatCreated, this`compatDeleted
      ensures Valid() && Extends(old(images), images) && Extends(old(devices), devices)
      ensures desired' == desired + AllTo(ScopeIds(e, canon), e.id)
      ensures Matches(devices, images, compat, wanted[e.id := Targets(e, canon)])
      ensures KeptOutside(was, compat, images, wanted[e.id := Targets(e, canon)].Keys)
      ensures Balance() == old(Balance())
      ensures old(Fits(devices, images, compat, e.id, Targets(e, canon))) ==>
                Same(old(devices), old(images), old(compat), old(compatCreated), old(compatDeleted))
    {
      var targets;
      targets, desired' := AddScopes(e, canon, NamedIds(e, canon), desired);
      ghost var images1, compat1 := images, compat;
      SeedImage(e, targets, canon, wanted);
      KeptOneMore(was, compat1, compat, images1, images, wanted, e.id, Targets(e, canon));
    }

    /** seed_manifest_images: every image gets its rows, and the defaults asked for are collected. */
    method SeedManifestImages(entries: seq<Entry>, canon: Canon) returns (desired: map<string, string>)
      requires Valid()
      modifies this`devices, this`images, this`nextId, this`compat, this`compatCreated, this`compatDeleted
      ensures Valid() && Extends(old(images), images) && Extends(old(devices), devices)
      ensures desired == Desired(entries, canon) && Matches(devices, images, compat, Wanted(entries, canon))
      ensures Balance() == old(Balance()) && KeptOutside(old(compat), compat, images, Wanted(entries, canon).Keys)
      ensures DistinctIds(entries) && old(Matches(devices, images, compat, Wanted(entries, canon))) ==>
                Same(old(devices), old(images), old(compat), old(compatCreated), old(compatDeleted))
    {
      desired := map[];
      ghost var devices0, images0, compat0, created0, deleted0 := devices, images, compat, compatCreated, compatDeleted;
      for i := 0 to |entries|
        invariant Valid() && Extends(images0, images) && Extends(devices0, devices)
        invariant desired == Desired(entries[..i], canon)
        invariant Matches(devices, images, compat, Wanted(entries[..i], canon))
        invariant Balance() == old(Balance())
        invariant KeptOutside(compat0, compat, images, Wanted(entries[..i], canon).Keys)
        invariant DistinctIds(entries) && old(Matches(devices, images, compat, Wanted(entries, canon))) ==>
                    Same(devices0, images0, compat0, created0, deleted0)
      {
        assert entries[..i + 1][..i] == entries[..i];
        if entries[i].id == "" { continue; }
        if DistinctIds(entries) { DistinctIdsWantTheirTargets(entries, canon, i); }
        desired := SeedEntry(entries[i], canon, desired, Wanted(entries[..i], canon), compat0);
      }
      assert entries[..|entries|] == entries;
    }

    ghost predicate Same(devices0: map<string, nat>, images0: map<string, nat>, compat0: map<nat, set<nat>>,
                         created0: nat, deleted0: nat)
      reads this
    {
      devices == devices0 && images == images0 && compat == compat0
      && compatCreated == created0 && compatDeleted == deleted0
    }

    /** The run over the manifest: it ends settled, rows created less rows deleted is the change in size,
        images outside the manifest keep their rows, and over a settled catalog, with distinct image ids,
        it changes and counts nothing. */
    method Run(entries: seq<Entry>, canon: Canon)
      requires Valid()
      modifies this
      ensures Valid() && Settled(devices, images, compat, defaults, Wanted(entries, canon), Desired(entries, canon))
      ensures Balance() == old(Balance()) && KeptOutside(old(compat), compat, images, Wanted(entries, canon).Keys)
      ensures DistinctIds(entries)
              && old(Settled(devices, images, compat, defaults, Wanted(entries, canon), Desired(entries, canon))) ==>
                && Same(old(devices), old(images), old(compat), old(compatCreated), old(compatDeleted))
                && SameDefaults(old(devices), old(defaults), old(defaultsCreated),
                                old(defaultsUpdated), old(defaultsDeleted))
    {
      WantedAreEntries(entries, canon);
      var desired := SeedManifestImages(entries, canon);
      ghost var devices1 := devices;
      WantedImagesExist(devices, images, compat, Wanted(entries, canon));
      SettleDefaults(desired);
      MatchesGrown(devices1, devices, images, compat, Wanted(entries, canon), desired.Keys);
    }
  }
}
