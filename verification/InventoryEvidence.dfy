/** Address evidence under merge and split. */
module InventoryEvidence {
  import opened Prelude
  import opened InventoryModel
  import opened InventoryIdentity

  /** The row that moves, or the two that become one. */
  function MoveOne(paths: map<PathKey, Path>, r: Id, k: PathKey): map<PathKey, Path>
    requires k in paths
  {
    var to := Twin(k, r);
    if to in paths
    then paths[to := Path(paths[to].observedMac, Earlier(paths[to].first, paths[k].first), Later(paths[to].last, paths[k].last))] - {k}
    else paths[to := paths[k]] - {k}
  }

  lemma MoveOneKeepsRest(paths: map<PathKey, Path>, r: Id, c: Id, k: PathKey)
    requires r != c && k in paths && k.device == c
    ensures MovePaths(MoveOne(paths, r, k), r, c) == MovePaths(paths, r, c)
  {
    var one := MoveOne(paths, r, k);
    forall q ensures MovedPath(one, r, c, q) == MovedPath(paths, r, c, q) {
      if q.device == r {
        assert Twin(q, c) == k <==> q == Twin(k, r);
      }
    }
    MoveMeaning(one, r, c);
    MoveMeaning(paths, r, c);
  }

  lemma MoveMeaning(paths: map<PathKey, Path>, r: Id, c: Id)
    ensures forall q :: q in MovePaths(paths, r, c) <==> MovedPath(paths, r, c, q).Some?
    ensures forall q :: q in MovePaths(paths, r, c) ==> MovePaths(paths, r, c)[q] == MovedPath(paths, r, c, q).value
  {
  }

  lemma NothingToMove(paths: map<PathKey, Path>, r: Id, c: Id)
    requires forall k :: k in paths ==> k.device != c
    ensures MovePaths(paths, r, c) == paths
  {
  }

  /** t is the earliest (or latest) of what the two devices recorded under one key. */
  ghost predicate Extreme(t: int, atMost: bool, mine: Option<int>, theirs: Option<int>) {
    && (mine == Some(t) || theirs == Some(t))
    && (mine.Some? ==> if atMost then t <= mine.value else t >= mine.value)
    && (theirs.Some? ==> if atMost then t <= theirs.value else t >= theirs.value)
  }

  function First(paths: map<PathKey, Path>, k: PathKey): Option<int> {
    if k in paths then Some(paths[k].first) else None
  }

  function Last(paths: map<PathKey, Path>, k: PathKey): Option<int> {
    if k in paths then Some(paths[k].last) else None
  }

  /**
    After a committed merge the retained device has the keyed union of both devices' address evidence,
    with the earliest first and the latest last sighting; nothing is left under the candidate and
    everybody else's evidence is untouched.
  */
  lemma MergeUnitesEvidence(db: Db, r: Id, c: Id, macs: (Option<Mac>, Option<Mac>), confirmed: bool, reasoned: bool, blockers: bool)
    requires Merge(db, r, c, macs, confirmed, reasoned, blockers).Ok?
    ensures var after := Merge(db, r, c, macs, confirmed, reasoned, blockers).value.paths;
            && (forall k :: k in after ==> k.device != c)
            && (forall k: PathKey :: k.device != c && k.device != r ==>
                  (k in after <==> k in db.paths) && (k in after ==> after[k] == db.paths[k]))
            && (forall k: PathKey :: k.device == r ==> (k in after <==> k in db.paths || Twin(k, c) in db.paths))
            && (forall k :: k in after && k.device == r ==>
                  && Extreme(after[k].first, true, First(db.paths, k), First(db.paths, Twin(k, c)))
                  && Extreme(after[k].last, false, Last(db.paths, k), Last(db.paths, Twin(k, c)))
                  && after[k].observedMac == db.paths[if k in db.paths then k else Twin(k, c)].observedMac)
  {
    MergeAllowed(db, r, c, macs, confirmed, reasoned, blockers);
    hide MergeRefusal, MovePaths;
    MoveMeaning(db.paths, r, c);
  }

  /** A committed split moves exactly the evidence observed under the alias, unchanged. */
  lemma SplitMovesEvidence(db: Db, r: Id, mac: Option<Mac>, name: string, confirmed: bool)
    requires Valid(db) && Split(db, r, mac, name, confirmed).Ok?
    ensures var after := Split(db, r, mac, name, confirmed).value.paths;
            && (forall k: PathKey :: k in after <==> if k.device == db.nextId
                  then k.(device := r) in db.paths && db.paths[k.(device := r)].observedMac == mac.value
                  else k in db.paths && (k.device == r ==> db.paths[k].observedMac != mac.value))
            && (forall k :: k in after ==> after[k] == db.paths[if k.device == db.nextId then k.(device := r) else k])
  {
    SplitAllowed(db, r, mac, name, confirmed);
    hide SplitRefusal;
    var after := Split(db, r, mac, name, confirmed).value.paths;
    forall k | SplitMoves(db, r, mac.value, k) ensures k in after {
      assert k.(device := r).(device := db.nextId) == k;
    }
  }
}
