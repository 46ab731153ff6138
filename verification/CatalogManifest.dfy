/** What a manifest asks the catalog for, in plain words: beside the maps that CatalogBackfill computes. */
module CatalogManifest {
  import opened CatalogBackfill

  /** The entry wants to be the default of device `d`: one of its scopes stands for it; or it has no scopes, is
      marked as default, and its primary device stands for it. */
  ghost predicate IsDefaultFor(e: Entry, canon: Canon, d: string) {
    && d != ""
    && if e.scopes != [] then exists s :: s in e.scopes && canon.scope(s) == d
       else e.isDefault && e.primary != "" && canon.scope(e.primary) == d
  }

  /** The entry is for device `d`: as its primary device, a compatible one, or one it is to be the default of. */
  ghost predicate IsFor(e: Entry, canon: Canon, d: string) {
    || IsDefaultFor(e, canon, d)
    || (d != "" && e.primary != "" && canon.device(e.primary) == d)
    || (d != "" && exists c :: c in e.compatible && c != "" && canon.device(c) == d)
  }

  lemma TargetsAreFor(e: Entry, canon: Canon)
    ensures forall d :: d in ScopeIds(e, canon) <==> IsDefaultFor(e, canon, d)
    ensures forall d :: d in Targets(e, canon) <==> IsFor(e, canon, d)
  {
    forall d ensures d in ScopeIds(e, canon) <==> IsDefaultFor(e, canon, d) {
      if e.scopes == [] && e.isDefault && e.primary != "" {
        assert DefaultScopes(e) == [e.primary] && e.primary in DefaultScopes(e);
      }
    }
    forall d | d in NamedIds(e, canon) ensures IsFor(e, canon, d) {
      assert forall c :: c in [e.primary] + e.compatible <==> c == e.primary || c in e.compatible;
    }
    forall d | IsFor(e, canon, d) && !IsDefaultFor(e, canon, d) ensures d in NamedIds(e, canon) {
      var named := [e.primary] + e.compatible;
      assert e.primary in named && forall c :: c in e.compatible ==> c in named;
    }
  }

  /** The `i`-th entry is the last one of image `x`. */
  ghost predicate LastOf(entries: seq<Entry>, i: int, x: string) {
    0 <= i < |entries| && entries[i].id == x != "" && forall j :: i < j < |entries| ==> entries[j].id != x
  }

  /** The `i`-th entry is the last one that wants to be the default of `d`. */
  ghost predicate LastDefault(entries: seq<Entry>, canon: Canon, i: int, d: string) {
    && 0 <= i < |entries| && entries[i].id != "" && IsDefaultFor(entries[i], canon, d)
    && forall j :: i < j < |entries| ==> entries[j].id == "" || !IsDefaultFor(entries[j], canon, d)
  }

  /** What a manifest asks for: of an image the devices of its last entry, of a device the last image that
      wants to be its default; entries without an id ask for nothing. */
  lemma {:induction false} ManifestAsks(entries: seq<Entry>, canon: Canon)
    ensures forall x <- Wanted(entries, canon) :: exists i :: LastOf(entries, i, x)
    ensures forall i, x :: LastOf(entries, i, x) ==>
              x in Wanted(entries, canon) && forall d :: d in Wanted(entries, canon)[x] <==> IsFor(entries[i], canon, d)
    ensures DesiredIsLast(entries, canon, Desired(entries, canon))
  {
    if entries != [] {
      var front, last := entries[..|entries| - 1], entries[|entries| - 1];
      ManifestAsks(front, canon);
      TargetsAreFor(last, canon);
      WantedOneMore(front, last, canon);
      DesiredOneMore(front, last, canon);
      assert entries == front + [last];
    }
  }

  lemma WantedOneMore(front: seq<Entry>, last: Entry, canon: Canon)
    requires forall x <- Wanted(front, canon) :: exists i :: LastOf(front, i, x)
    requires forall i, x :: LastOf(front, i, x) ==>
               x in Wanted(front, canon) && forall d :: d in Wanted(front, canon)[x] <==> IsFor(front[i], canon, d)
    ensures var all := front + [last];
            && (forall x <- Wanted(all, canon) :: exists i :: LastOf(all, i, x))
            && (forall i, x :: LastOf(all, i, x) ==>
                  x in Wanted(all, canon) && forall d :: d in Wanted(all, canon)[x] <==> IsFor(all[i], canon, d))
  {
    var all := front + [last];
    TargetsAreFor(last, canon);
    assert all[..|front|] == front;
    assert Wanted(all, canon)
        == if last.id == "" then Wanted(front, canon) else Wanted(front, canon)[last.id := Targets(last, canon)];
    forall x <- Wanted(all, canon) ensures exists i :: LastOf(all, i, x) {
      if x == last.id != "" {
        assert LastOf(all, |front|, x);
      } else {
        var i :| LastOf(front, i, x);
        assert LastOf(all, i, x);
      }
    }
    forall i, x | LastOf(all, i, x)
      ensures x in Wanted(all, canon) && forall d :: d in Wanted(all, canon)[x] <==> IsFor(all[i], canon, d)
    {
      if i < |front| {
        assert all[|front|].id != x && LastOf(front, i, x);
      }
    }
  }

  lemma DesiredAt(front: seq<Entry>, last: Entry, canon: Canon, d: string)
    ensures var was, now := Desired(front, canon), Desired(front + [last], canon);
            if last.id != "" && IsDefaultFor(last, canon, d) then d in now && now[d] == last.id
            else (d in now <==> d in was) && (d in now ==> now[d] == was[d])
  {
    TargetsAreFor(last, canon);
    assert (front + [last])[..|front|] == front;
  }

  ghost predicate DesiredIsLast(entries: seq<Entry>, canon: Canon, desired: map<string, string>) {
    && (forall d <- desired :: exists i :: LastDefault(entries, canon, i, d))
    && (forall i, d :: LastDefault(entries, canon, i, d) ==> d in desired && desired[d] == entries[i].id)
  }

  lemma DesiredHasLast(front: seq<Entry>, last: Entry, canon: Canon, d: string)
    requires DesiredIsLast(front, canon, Desired(front, canon)) && d in Desired(front + [last], canon)
    ensures exists i :: LastDefault(front + [last], canon, i, d)
  {
    var all := front + [last];
    DesiredAt(front, last, canon, d);
    if last.id != "" && IsDefaultFor(last, canon, d) {
      assert LastDefault(all, canon, |front|, d);
    } else {
      var i :| LastDefault(front, canon, i, d);
      assert LastDefault(all, canon, i, d);
    }
  }

  lemma LastIsDesired(front: seq<Entry>, last: Entry, canon: Canon, i: int, d: string)
    requires DesiredIsLast(front, canon, Desired(front, canon)) && LastDefault(front + [last], canon, i, d)
    ensures var all := front + [last]; d in Desired(all, canon) && Desired(all, canon)[d] == all[i].id
  {
    var all := front + [last];
    DesiredAt(front, last, canon, d);
    if i < |front| { assert all[|front|] == last && LastDefault(front, canon, i, d); }
  }

  lemma DesiredOneMore(front: seq<Entry>, last: Entry, canon: Canon)
    requires DesiredIsLast(front, canon, Desired(front, canon))
    ensures DesiredIsLast(front + [last], canon, Desired(front + [last], canon))
  {
    var all := front + [last];
    forall d <- Desired(all, canon) ensures exists i :: LastDefault(all, canon, i, d) {
      DesiredHasLast(front, last, canon, d);
    }
    forall i, d | LastDefault(all, canon, i, d)
      ensures d in Desired(all, canon) && Desired(all, canon)[d] == all[i].id
    {
      LastIsDesired(front, last, canon, i, d);
    }
  }
}
