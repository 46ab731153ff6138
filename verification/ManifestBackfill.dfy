/** Merging the compatible devices of image entries that share one artifact
    (scripts/backfill_manifest_compatible_devices.py). */
module ManifestBackfill {
  import opened Wrappers

  /** A manifest entry: its artifact key ("" for none), its device ("" for none), its compatible devices. */
  datatype Image = Image(artifact: string, device: string, compatible: seq<string>)

  // ---- Sorted lists of names ----

  /** Character by character, the shorter first. */
  predicate Leq(a: string, b: string)
    decreases a
  {
    a == "" || (b != "" && (a[0] < b[0] || (a[0] == b[0] && Leq(a[1..], b[1..]))))
  }

  lemma {:induction false} LeqTotal(a: string, b: string)
    ensures Leq(a, b) || Leq(b, a)
    ensures Leq(a, b) && Leq(b, a) ==> a == b
    decreases a
  {
    if a != "" && b != "" && a[0] == b[0] {
      LeqTotal(a[1..], b[1..]);
      assert a == [a[0]] + a[1..] && b == [b[0]] + b[1..];
    }
  }

  lemma {:induction false} LeqTransitive(a: string, b: string, c: string)
    requires Leq(a, b) && Leq(b, c)
    ensures Leq(a, c)
    decreases a
  {
    if a != "" && a[0] == b[0] && b[0] == c[0] { LeqTransitive(a[1..], b[1..], c[1..]); }
  }

  /** Sorted, each name once. */
  predicate Ascending(s: seq<string>) {
    forall i, j :: 0 <= i < j < |s| ==> Leq(s[i], s[j]) && s[i] != s[j]
  }

  function Insert(s: seq<string>, x: string): seq<string> {
    if s == [] then [x]
    else if Leq(x, s[0]) then [x] + s
    else [s[0]] + Insert(s[1..], x)
  }

  lemma {:induction false} InsertKeepsOrder(s: seq<string>, x: string)
    requires Ascending(s) && x !in s
    ensures Ascending(Insert(s, x)) && forall y :: y in Insert(s, x) <==> y == x || y in s
  {
    if s != [] {
      LeqTotal(x, s[0]);
      if Leq(x, s[0]) {
        forall j | 0 < j < |s| ensures Leq(x, s[j]) { LeqTransitive(x, s[0], s[j]); }
      } else {
        InsertKeepsOrder(s[1..], x);
        var rest := Insert(s[1..], x);
        forall y <- rest ensures Leq(s[0], y) && s[0] != y {
          if y != x {
            var j :| 0 <= j < |s[1..]| && s[1..][j] == y;
            assert s[j + 1] == y;
          }
        }
      }
    }
  }

  lemma FirstIsIn(s: seq<string>)
    ensures s != [] ==> s[0] in s
  {
  }

  /** Ascending lists with the same elements are equal. */
  lemma {:induction false} AscendingIsCanonical(a: seq<string>, b: seq<string>)
    requires Ascending(a) && Ascending(b) && forall x :: x in a <==> x in b
    ensures a == b
  {
    FirstIsIn(b);
    if a != [] {
      assert a[0] in b && b != [] && b[0] in a;
      LeqTotal(a[0], b[0]);
      assert a[0] == b[0];
      assert forall x :: x in a[1..] <==> x in a && x != a[0];
      assert forall x :: x in b[1..] <==> x in b && x != b[0];
      AscendingIsCanonical(a[1..], b[1..]);
      assert a == [a[0]] + a[1..] && b == [b[0]] + b[1..];
    }
  }

  // ---- _normalize_devices ----

  /** The canonical names, each at its first appearance; `canon` takes a raw name to its canonical
      lower-case form, "" where there is none. */
  function Distinct(values: seq<string>, canon: string -> string): (out: seq<string>)
    ensures NoRepeats(out)
    ensures forall x :: x in out <==> x != "" && exists i :: 0 <= i < |values| && canon(values[i]) == x
  {
    if values == [] then []
    else
      var before := Distinct(values[..|values| - 1], canon);
      var key := canon(values[|values| - 1]);
      if key == "" || key in before then before else before + [key]
  }

  function Sorted(s: seq<string>): seq<string> {
    if s == [] then [] else Insert(Sorted(s[..|s| - 1]), s[|s| - 1])
  }

  lemma {:induction false} SortedIsAscending(s: seq<string>)
    requires NoRepeats(s)
    ensures Ascending(Sorted(s)) && forall x :: x in Sorted(s) <==> x in s
  {
    if s != [] {
      SortedIsAscending(s[..|s| - 1]);
      InsertKeepsOrder(Sorted(s[..|s| - 1]), s[|s| - 1]);
      assert s == s[..|s| - 1] + [s[|s| - 1]];
    }
  }

  /** The canonical names of the values, sorted, each once. */
  function Normalized(values: seq<string>, canon: string -> string): (out: seq<string>)
    ensures Ascending(out)
    ensures forall x :: x in out <==> x != "" && exists i :: 0 <= i < |values| && canon(values[i]) == x
  {
    SortedIsAscending(Distinct(values, canon));
    Sorted(Distinct(values, canon))
  }

  method NormalizeDevices(values: seq<string>, canon: string -> string) returns (out: seq<string>)
    ensures out == Normalized(values, canon)
  {
    out := [];
    var seen: set<string> := {};
    for i := 0 to |values|
      invariant forall x :: x in seen <==> x in out
      invariant out == Distinct(values[..i], canon)
    {
      assert values[..i + 1][..i] == values[..i];
      var key := canon(values[i]);
      if key == "" { continue; }
      if key in seen { continue; }
      seen := seen + {key};
      out := out + [key];
    }
    assert values[..|values|] == values;
    out := Sorted(out);
  }

  /** The list of a name list's canonical names depends on those names only. */
  lemma SameNames(a: seq<string>, b: seq<string>, canon: string -> string)
    requires forall x :: x in Normalized(a, canon) <==> x in Normalized(b, canon)
    ensures Normalized(a, canon) == Normalized(b, canon)
  {
    AscendingIsCanonical(Normalized(a, canon), Normalized(b, canon));
  }

  ghost predicate Idempotent(canon: string -> string) { forall x :: canon(canon(x)) == canon(x) }

  lemma NormalizedIsFixpoint(values: seq<string>, canon: string -> string)
    requires Idempotent(canon)
    ensures Normalized(Normalized(values, canon), canon) == Normalized(values, canon)
  {
    var once := Normalized(values, canon);
    var twice := Normalized(once, canon);
    forall x ensures x in twice <==> x in once {
      if x in once {
        var i :| 0 <= i < |values| && canon(values[i]) == x;
        var j :| 0 <= j < |once| && once[j] == x;
        assert canon(once[j]) == canon(canon(values[i]));
      }
      if x in twice {
        var j :| 0 <= j < |once| && canon(once[j]) == x;
        assert once[j] in once;
        var i :| 0 <= i < |values| && canon(values[i]) == once[j];
        assert canon(canon(values[i])) == canon(values[i]);
      }
    }
    AscendingIsCanonical(twice, once);
  }

  // ---- backfill_manifest ----

  predicate Within(members: seq<nat>, n: nat) { forall k :: 0 <= k < |members| ==> members[k] < n }

  /** The entries with the artifact, in order. */
  function Members(images: seq<Image>, key: string): (members: seq<nat>)
    ensures Within(members, |images|)
  {
    if images == [] then []
    else
      var last := |images| - 1;
      Members(images[..last], key) + if images[last].artifact == key then [last] else []
  }

  lemma {:induction false} MembersAre(images: seq<Image>, key: string)
    ensures forall m: nat :: m in Members(images, key) <==> m < |images| && images[m].artifact == key
    ensures forall i, j :: 0 <= i < j < |Members(images, key)| ==> Members(images, key)[i] < Members(images, key)[j]
  {
    if images != [] { MembersAre(images[..|images| - 1], key); }
  }

  /** All raw device names of the entries. */
  function RawDevices(images: seq<Image>, members: seq<nat>): seq<string>
    requires Within(members, |images|)
  {
    if members == [] then []
    else
      var image := images[members[|members| - 1]];
      RawDevices(images, members[..|members| - 1]) + (if image.device == "" then [] else [image.device])
      + image.compatible
  }

  function Union(images: seq<Image>, key: string, canon: string -> string): seq<string> {
    Normalized(RawDevices(images, Members(images, key)), canon)
  }

  predicate Shared(images: seq<Image>, i: nat)
    requires i < |images|
  {
    images[i].artifact != "" && |Members(images, images[i].artifact)| >= 2
  }

  /** Gets a new list: its own, normalized, is not the union of its group. */
  predicate Stale(images: seq<Image>, i: nat, canon: string -> string)
    requires i < |images|
  {
    Shared(images, i) && Normalized(images[i].compatible, canon) != Union(images, images[i].artifact, canon)
  }

  function Merged(images: seq<Image>, i: nat, canon: string -> string): Image
    requires i < |images|
  {
    if Stale(images, i, canon) then images[i].(compatible := Union(images, images[i].artifact, canon)) else images[i]
  }

  function Backfilled(images: seq<Image>, canon: string -> string): (images': seq<Image>)
    ensures |images'| == |images| && forall i :: 0 <= i < |images| ==> images'[i] == Merged(images, i, canon)
  {
    seq(|images|, i requires 0 <= i < |images| => Merged(images, i, canon))
  }

  predicate Names(image: Image, v: string) { (v != "" && v == image.device) || v in image.compatible }

  lemma {:induction false} RawDevicesAre(images: seq<Image>, members: seq<nat>, v: string)
    requires Within(members, |images|)
    ensures v in RawDevices(images, members)
       <==> exists i :: 0 <= i < |members| && Names(images[members[i]], v)
  {
    if members != [] {
      var front := members[..|members| - 1];
      RawDevicesAre(images, front, v);
      assert members == front + [members[|members| - 1]];
    }
  }

  lemma {:induction false} SameMembers(images: seq<Image>, images': seq<Image>, key: string)
    requires |images'| == |images| && forall i :: 0 <= i < |images| ==> images'[i].artifact == images[i].artifact
    ensures Members(images', key) == Members(images, key)
  {
    if images != [] { SameMembers(images[..|images| - 1], images'[..|images| - 1], key); }
  }

  /** After the backfill every entry of a shared artifact has, once normalized, the union of its group. */
  lemma SharedEntriesAgree(images: seq<Image>, i: nat, canon: string -> string)
    requires Idempotent(canon) && i < |images| && Shared(images, i)
    ensures Normalized(Backfilled(images, canon)[i].compatible, canon) == Union(images, images[i].artifact, canon)
  {
    NormalizedIsFixpoint(RawDevices(images, Members(images, images[i].artifact)), canon);
  }

  /** Its list itself is that union exactly when it was stale or was in normal form already: a list that
      only differs in order, case or repetitions stays as it is. */
  lemma ListIsUnionIff(images: seq<Image>, i: nat, canon: string -> string)
    requires i < |images| && Shared(images, i)
    ensures Backfilled(images, canon)[i].compatible == Union(images, images[i].artifact, canon)
       <==> Stale(images, i, canon) || images[i].compatible == Normalized(images[i].compatible, canon)
  {
  }

  /** The union of a group stays what it was. */
  lemma UnionStays(images: seq<Image>, i: nat, canon: string -> string)
    requires Idempotent(canon) && i < |images| && Shared(images, i)
    ensures var images' := Backfilled(images, canon);
            Union(images', images[i].artifact, canon) == Union(images, images[i].artifact, canon)
  {
    var images' := Backfilled(images, canon);
    var key := images[i].artifact;
    var members := Members(images, key);
    var raw, raw' := RawDevices(images, members), RawDevices(images', members);
    SameMembers(images, images', key);
    forall x ensures x in Normalized(raw', canon) <==> x in Normalized(raw, canon) {
      if x in Normalized(raw, canon) { UnionOnlyGrows(images, i, canon, x); }
      if x in Normalized(raw', canon) { UnionGainsNothing(images, i, canon, x); }
    }
    SameNames(raw', raw, canon);
  }

  lemma UnionOnlyGrows(images: seq<Image>, i: nat, canon: string -> string, x: string)
    requires Idempotent(canon) && i < |images| && Shared(images, i) && x in Union(images, images[i].artifact, canon)
    ensures x in Normalized(RawDevices(Backfilled(images, canon), Members(images, images[i].artifact)), canon)
  {
    var images' := Backfilled(images, canon);
    var members := Members(images, images[i].artifact);
    SharedEntriesAgree(images, i, canon);
    var j :| 0 <= j < |images'[i].compatible| && canon(images'[i].compatible[j]) == x;
    var v := images'[i].compatible[j];
    MembersAre(images, images[i].artifact);
    assert i in members;
    var m :| 0 <= m < |members| && members[m] == i;
    RawDevicesAre(images', members, v);
    assert v in images'[members[m]].compatible;
  }

  lemma MemberGainsNothing(images: seq<Image>, m: nat, canon: string -> string, v: string)
    requires Idempotent(canon) && m < |images| && Shared(images, m) && canon(v) != ""
    requires Names(Backfilled(images, canon)[m], v)
    ensures canon(v) in Union(images, images[m].artifact, canon)
  {
    var images' := Backfilled(images, canon);
    var members := Members(images, images[m].artifact);
    var raw := RawDevices(images, members);
    if v in images'[m].compatible {
      SharedEntriesAgree(images, m, canon);
      var j :| 0 <= j < |images'[m].compatible| && images'[m].compatible[j] == v;
      assert canon(v) in Normalized(images'[m].compatible, canon);
    } else {
      MembersAre(images, images[m].artifact);
      assert m in members;
      var k :| 0 <= k < |members| && members[k] == m;
      RawDevicesAre(images, members, v);
      var j :| 0 <= j < |raw| && raw[j] == v;
      assert canon(raw[j]) == canon(v);
    }
  }

  lemma NamedBy(images: seq<Image>, members: seq<nat>, v: string) returns (m: nat)
    requires Within(members, |images|) && v in RawDevices(images, members)
    ensures m in members && m < |images| && Names(images[m], v)
  {
    RawDevicesAre(images, members, v);
    var k :| 0 <= k < |members| && Names(images[members[k]], v);
    m := members[k];
  }

  lemma UnionGainsNothing(images: seq<Image>, i: nat, canon: string -> string, x: string)
    requires Idempotent(canon) && i < |images| && Shared(images, i)
    requires x in Normalized(RawDevices(Backfilled(images, canon), Members(images, images[i].artifact)), canon)
    ensures x in Union(images, images[i].artifact, canon)
  {
    var images' := Backfilled(images, canon);
    var members := Members(images, images[i].artifact);
    var raw' := RawDevices(images', members);
    var j :| 0 <= j < |raw'| && canon(raw'[j]) == x;
    var m := NamedBy(images', members, raw'[j]);
    MembersAre(images, images[i].artifact);
    MemberGainsNothing(images, m, canon, raw'[j]);
  }

  /** A second run finds nothing to update. */
  lemma SecondRunIsQuiet(images: seq<Image>, i: nat, canon: string -> string)
    requires Idempotent(canon) && i < |images|
    ensures !Stale(Backfilled(images, canon), i, canon)
    ensures Backfilled(Backfilled(images, canon), canon)[i] == Backfilled(images, canon)[i]
  {
    var images' := Backfilled(images, canon);
    SameMembers(images, images', images[i].artifact);
    if Shared(images, i) {
      SharedEntriesAgree(images, i, canon);
      UnionStays(images, i, canon);
    }
  }

  // ---- The same in plain words ----

  /** Alphabetical order: a prefix, or less at the first difference. */
  lemma {:induction false} LeqIsAlphabetical(a: string, b: string)
    ensures Leq(a, b) <==> exists n :: Splits(a, b, n)
    decreases a
  {
    if a == "" {
      assert Splits(a, b, 0);
    } else if b != "" && a[0] == b[0] {
      LeqIsAlphabetical(a[1..], b[1..]);
      if n :| Splits(a[1..], b[1..], n) {
        assert a[..n + 1] == [a[0]] + a[1..][..n] && b[..n + 1] == [b[0]] + b[1..][..n];
        assert Splits(a, b, n + 1);
      }
      if n :| Splits(a, b, n) {
        assert n > 0 && a[1..][..n - 1] == a[..n][1..] && b[1..][..n - 1] == b[..n][1..];
        assert Splits(a[1..], b[1..], n - 1);
      }
    } else if b != "" && a[0] < b[0] {
      assert Splits(a, b, 0);
    } else {
      forall n ensures !Splits(a, b, n) {
        assert 0 < n <= |a| && n <= |b| ==> a[..n][0] == a[0] && b[..n][0] == b[0];
      }
    }
  }

  ghost predicate Splits(a: string, b: string, n: int) {
    0 <= n <= |a| && n <= |b| && a[..n] == b[..n] && (n == |a| || (n < |b| && a[n] < b[n]))
  }

  /** The entry `i` shares its artifact with another one. */
  ghost predicate HasTwin(images: seq<Image>, i: int) {
    0 <= i < |images| && images[i].artifact != "" && exists j :: IsTwin(images, i, j)
  }

  ghost predicate IsTwin(images: seq<Image>, i: int, j: int) {
    0 <= i < |images| && 0 <= j < |images| && j != i && images[j].artifact == images[i].artifact
  }

  /** Some device of an entry with this artifact has the canonical name `x`. */
  ghost predicate GroupHas(images: seq<Image>, artifact: string, canon: string -> string, x: string) {
    exists j, v :: 0 <= j < |images| && images[j].artifact == artifact && Names(images[j], v) && canon(v) == x
  }

  ghost predicate ListHas(names: seq<string>, canon: string -> string, x: string) {
    exists v :: v in names && canon(v) == x
  }

  lemma SharedIffTwin(images: seq<Image>, i: nat)
    requires i < |images|
    ensures Shared(images, i) <==> HasTwin(images, i)
  {
    var members := Members(images, images[i].artifact);
    MembersAre(images, images[i].artifact);
    assert i in members;
    var k :| 0 <= k < |members| && members[k] == i;
    if |members| >= 2 {
      var j := members[if k == 0 then 1 else 0];
      assert j in members && j != i;
      assert IsTwin(images, i, j);
    }
    if j :| IsTwin(images, i, j) {
      assert j in members;
    }
  }

  lemma UnionIsGroup(images: seq<Image>, key: string, canon: string -> string, x: string)
    requires x != ""
    ensures x in Union(images, key, canon) <==> GroupHas(images, key, canon, x)
  {
    var members := Members(images, key);
    var raw := RawDevices(images, members);
    MembersAre(images, key);
    if x in Union(images, key, canon) {
      var i :| 0 <= i < |raw| && canon(raw[i]) == x;
      var m := NamedBy(images, members, raw[i]);
      assert images[m].artifact == key;
    }
    if j, v :| 0 <= j < |images| && images[j].artifact == key && Names(images[j], v) && canon(v) == x {
      assert j in members;
      var k :| 0 <= k < |members| && members[k] == j;
      RawDevicesAre(images, members, v);
      var i :| 0 <= i < |raw| && raw[i] == v;
    }
  }

  lemma NormalizedHas(names: seq<string>, canon: string -> string, x: string)
    requires x != ""
    ensures x in Normalized(names, canon) <==> ListHas(names, canon, x)
  {
  }

  lemma StaleIffShort(images: seq<Image>, i: nat, canon: string -> string)
    requires i < |images|
    ensures Stale(images, i, canon)
       <==> HasTwin(images, i)
            && exists x :: x != "" && GroupHas(images, images[i].artifact, canon, x)
                           && !ListHas(images[i].compatible, canon, x)
  {
    SharedIffTwin(images, i);
    var own, union := Normalized(images[i].compatible, canon), Union(images, images[i].artifact, canon);
    forall x ensures x != "" ==> (x in own <==> ListHas(images[i].compatible, canon, x))
                                 && (x in union <==> GroupHas(images, images[i].artifact, canon, x))
    {
      if x != "" {
        NormalizedHas(images[i].compatible, canon, x);
        UnionIsGroup(images, images[i].artifact, canon, x);
      }
    }
    forall x | x in own ensures x in union {
      var v :| v in images[i].compatible && canon(v) == x;
      assert Names(images[i], v);
    }
    if forall x :: x in union ==> x in own { AscendingIsCanonical(own, union); }
  }

  /** What becomes of one entry.  It is rewritten exactly when another entry has its artifact and some device of
      the group is missing in its own list; then its list is the sorted list of the canonical names of all
      devices of the group, each once.  Artifact and device never change. */
  lemma EntryOutcome(images: seq<Image>, i: nat, canon: string -> string)
    requires i < |images|
    ensures var image' := Backfilled(images, canon)[i];
            var rewritten := HasTwin(images, i)
              && exists x :: x != "" && GroupHas(images, images[i].artifact, canon, x)
                             && !ListHas(images[i].compatible, canon, x);
            && image'.artifact == images[i].artifact && image'.device == images[i].device
            && (!rewritten ==> image' == images[i])
            && (rewritten ==>
                  Ascending(image'.compatible)
                  && forall x :: x in image'.compatible <==> x != "" && GroupHas(images, images[i].artifact, canon, x))
  {
    StaleIffShort(images, i, canon);
    if Stale(images, i, canon) {
      forall x ensures x in Union(images, images[i].artifact, canon)
                  <==> x != "" && GroupHas(images, images[i].artifact, canon, x)
      {
        if x != "" { UnionIsGroup(images, images[i].artifact, canon, x); }
      }
    }
  }

  // ---- The loops, in place ----

  /** The groups in the order of their first entries. */
  function Keys(images: seq<Image>): seq<string> {
    if images == [] then []
    else
      var before := Keys(images[..|images| - 1]);
      var k := images[|images| - 1].artifact;
      if k == "" || k in before then before else before + [k]
  }

  ghost predicate Grouped(images: seq<Image>, groups: map<string, seq<nat>>, keys: seq<string>) {
    && keys == Keys(images)
    && (forall k :: k in groups <==> k in keys)
    && forall k <- keys :: groups[k] == Members(images, k)
  }

  lemma {:induction false} NoKeyNoMembers(images: seq<Image>, k: string)
    requires k != "" && k !in Keys(images)
    ensures Members(images, k) == []
  {
    if images != [] { NoKeyNoMembers(images[..|images| - 1], k); }
  }

  lemma MembersOneMore(images: seq<Image>, image: Image, k: string)
    ensures Members(images + [image], k)
         == if image.artifact == k then Members(images, k) + [|images|] else Members(images, k)
  {
    assert (images + [image])[..|images|] == images;
  }

  lemma KeysOneMore(images: seq<Image>, image: Image)
    ensures Keys(images + [image])
         == if image.artifact == "" || image.artifact in Keys(images) then Keys(images)
            else Keys(images) + [image.artifact]
  {
    assert (images + [image])[..|images|] == images;
  }

  lemma GroupSkipsUnkeyed(images: seq<Image>, image: Image, groups: map<string, seq<nat>>, keys: seq<string>)
    requires Grouped(images, groups, keys) && image.artifact == ""
    ensures Grouped(images + [image], groups, keys)
  {
    KeysOneMore(images, image);
    KeysAre(images);
    forall j <- keys ensures groups[j] == Members(images + [image], j) { MembersOneMore(images, image, j); }
  }

  lemma GroupOneMore(images: seq<Image>, image: Image, groups: map<string, seq<nat>>, keys: seq<string>)
    requires Grouped(images, groups, keys) && image.artifact != ""
    ensures var k := image.artifact;
            var members := if k in groups then groups[k] else [];
            Grouped(images + [image], groups[k := members + [|images|]], if k in groups then keys else keys + [k])
  {
    var k := image.artifact;
    var members := if k in groups then groups[k] else [];
    var groups', keys' := groups[k := members + [|images|]], if k in groups then keys else keys + [k];
    KeysOneMore(images, image);
    if k !in groups { NoKeyNoMembers(images, k); }
    forall j <- keys' ensures groups'[j] == Members(images + [image], j) { MembersOneMore(images, image, j); }
  }

  lemma NthKey(images: seq<Image>, i: nat)
    requires i < |Keys(images)|
    ensures var keys := Keys(images);
            keys[i] in keys && keys[i] != "" && keys[i] !in keys[..i] && keys[..i + 1] == keys[..i] + [keys[i]]
  {
    KeysAre(images);
    ghost var keys := Keys(images);
    forall k <- keys[..i] ensures k != keys[i] {
      var j :| 0 <= j < i && keys[..i][j] == k;
      assert keys[j] == k;
    }
  }

  lemma GroupAt(images: seq<Image>, groups: map<string, seq<nat>>, keys: seq<string>, i: nat)
    requires Grouped(images, groups, keys) && i < |keys|
    ensures keys[i] in groups && groups[keys[i]] == Members(images, keys[i])
    ensures keys[i] != "" && keys[i] !in keys[..i] && keys[..i + 1] == keys[..i] + [keys[i]]
  {
    NthKey(images, i);
  }

  lemma {:induction false} KeysAre(images: seq<Image>)
    ensures forall k :: k in Keys(images) ==> k != ""
    ensures forall i :: 0 <= i < |images| && images[i].artifact != "" ==> images[i].artifact in Keys(images)
    ensures NoRepeats(Keys(images))
  {
    if images != [] { KeysAre(images[..|images| - 1]); }
  }

  method Group(images: array<Image>) returns (groups: map<string, seq<nat>>, keys: seq<string>)
    ensures Grouped(images[..], groups, keys)
  {
    groups, keys := map[], [];
    for i := 0 to images.Length
      invariant Grouped(images[..i], groups, keys)
    {
      assert images[..i + 1] == images[..i] + [images[i]];
      var k := images[i].artifact;
      if k == "" {
        GroupSkipsUnkeyed(images[..i], images[i], groups, keys);
        continue;
      }
      GroupOneMore(images[..i], images[i], groups, keys);
      if k !in groups { groups, keys := groups[k := []], keys + [k]; }
      groups := groups[k := groups[k] + [i]];
    }
    assert images[..images.Length] == images[..];
  }

  method Collect(images: array<Image>, group: seq<nat>) returns (raw: seq<string>)
    requires Within(group, images.Length)
    ensures raw == RawDevices(images[..], group)
  {
    raw := [];
    for i := 0 to |group|
      invariant raw == RawDevices(images[..], group[..i])
    {
      assert group[..i + 1][..i] == group[..i];
      var image := images[group[i]];
      if image.device != "" { raw := raw + [image.device]; }
      raw := raw + image.compatible;
    }
    assert group[..|group|] == group;
  }

  /** One entry, given the union of its group; tells whether it was updated. */
  function Corrected(image: Image, union: seq<string>, canon: string -> string): (Image, bool) {
    if Normalized(image.compatible, canon) != union then (image.(compatible := union), true) else (image, false)
  }

  /** The entries of one group. */
  method MergeGroup(images: array<Image>, group: seq<nat>, union: seq<string>, canon: string -> string)
    returns (updates: seq<nat>)
    requires Within(group, images.Length) && forall i, j :: 0 <= i < j < |group| ==> group[i] < group[j]
    modifies images
    ensures forall m: nat :: m < images.Length ==>
              images[m] == if m in group then Corrected(old(images[m]), union, canon).0 else old(images[m])
    ensures forall m: nat :: m in updates <==> m in group && Corrected(old(images[m]), union, canon).1
  {
    updates := [];
    for i := 0 to |group|
      invariant forall m: nat :: m < images.Length ==>
                  images[m] == if m in group[..i] then Corrected(old(images[m]), union, canon).0 else old(images[m])
      invariant forall m: nat :: m in updates <==> m in group[..i] && Corrected(old(images[m]), union, canon).1
    {
      var m := group[i];
      assert m !in group[..i] && group[..i + 1] == group[..i] + [m];
      var before := NormalizeDevices(images[m].compatible, canon);
      if before != union {
        images[m] := images[m].(compatible := union);
        updates := updates + [m];
      }
    }
    assert group[..|group|] == group;
  }

  /** The state once the groups `done` are merged. */
  ghost predicate MergedUpTo(was: seq<Image>, now: seq<Image>, updates: seq<nat>, done: seq<string>,
                             canon: string -> string) {
    && |now| == |was|
    && (forall m: nat :: m < |was| ==> now[m] == if was[m].artifact in done then Merged(was, m, canon) else was[m])
    && (forall m: nat :: m in updates <==> m < |was| && was[m].artifact in done && Stale(was, m, canon))
  }

  /** A group of its own size is left alone; the members of a shared one get what the loop gives them. */
  lemma MergedOneMore(was: seq<Image>, now: seq<Image>, now': seq<Image>, updates: seq<nat>, more: seq<nat>,
                      done: seq<string>, key: string, canon: string -> string)
    requires MergedUpTo(was, now, updates, done, canon) && key != "" && key !in done && |now'| == |now|
    requires var group := Members(was, key);
             if |group| < 2 then now' == now && more == []
             else
               && (forall m: nat :: m < |now| ==>
                     now'[m] == if m in group then Corrected(now[m], Union(was, key, canon), canon).0 else now[m])
               && (forall m: nat ::
                     m in more <==> m in group && m < |now| && Corrected(now[m], Union(was, key, canon), canon).1)
    ensures MergedUpTo(was, now', updates + more, done + [key], canon)
  {
    MembersAre(was, key);
  }

  method MergeOne(images: array<Image>, ghost was: seq<Image>, group: seq<nat>, ghost key: string,
                  ghost done: seq<string>,
                  updates: seq<nat>, canon: string -> string)
    returns (updates': seq<nat>)
    requires MergedUpTo(was, images[..], updates, done, canon)
    requires key != "" && key !in done && group == Members(was, key)
    modifies images
    ensures MergedUpTo(was, images[..], updates', done + [key], canon)
  {
    ghost var now := images[..];
    if |group| < 2 {
      MergedOneMore(was, now, now, updates, [], done, key, canon);
      assert updates + [] == updates;
      return updates;
    }
    MembersAre(was, key);
    SameRaw(was, now, group);
    var raw := Collect(images, group);
    var union := NormalizeDevices(raw, canon);
    var more := MergeGroup(images, group, union, canon);
    MergedOneMore(was, now, images[..], updates, more, done, key, canon);
    updates' := updates + more;
  }

  /** backfill_manifest: every stale entry of a shared artifact gets the union of its group, in place,
      and is reported; all other entries are left alone. */
  method BackfillManifest(images: array<Image>, canon: string -> string) returns (updates: seq<nat>)
    modifies images
    ensures images[..] == Backfilled(old(images[..]), canon)
    ensures forall m: nat :: m in updates <==> m < images.Length && Stale(old(images[..]), m, canon)
  {
    ghost var was := images[..];
    var groups, keys := Group(images);
    updates := [];
    for i := 0 to |keys|
      invariant MergedUpTo(was, images[..], updates, keys[..i], canon)
    {
      GroupAt(was, groups, keys, i);
      updates := MergeOne(images, was, groups[keys[i]], keys[i], keys[..i], updates, canon);
    }
    assert keys[..|keys|] == keys;
    AllMerged(was, images[..], updates, canon);
  }

  lemma AllMerged(was: seq<Image>, now: seq<Image>, updates: seq<nat>, canon: string -> string)
    requires MergedUpTo(was, now, updates, Keys(was), canon)
    ensures now == Backfilled(was, canon) && forall m: nat :: m in updates <==> m < |was| && Stale(was, m, canon)
  {
    KeysAre(was);
  }

  lemma {:induction false} SameRaw(images: seq<Image>, images': seq<Image>, members: seq<nat>)
    requires |images'| == |images| && Within(members, |images|)
    requires forall m <- members :: images'[m] == images[m]
    ensures RawDevices(images', members) == RawDevices(images, members)
  {
    if members != [] {
      assert members[|members| - 1] in members;
      SameRaw(images, images', members[..|members| - 1]);
    }
  }
}
