/**
 The content-addressed directories: the write that only ever gives a final name
 to bytes that hash to it, and the sweep that removes what nothing references.
 */
module FileStores {
  import opened Mail

  /** A file under its final name, or a temporary one beside it. */
  datatype Name = Final(sha: Sha) | Temp(sha: Sha, salt: nat)

  type Files = map<Name, Bytes>

  predicate Good(files: Files, s: Sha) {
    Final(s) in files && Hash(files[Final(s)]) == s
  }

  /** The files under final names, which is all that readers look at. */
  function Finals(files: Files): map<Sha, Bytes> {
    map f | f in files && f.Final? :: f.sha := files[f]
  }

  /** How a write can go: `lands` is what the disk holds after the bytes were
      written, and the process may die after any number of its steps. */
  datatype Fate = Fate(lands: Bytes, replaceFails: bool, dies: Option<nat>)

  datatype Outcome = Stored | Raised | Died

  class FileStore {
    var files: Files

    constructor ()
      ensures files == map[]
    {
      files := map[];
    }

    /** Write to a temporary file, read it back, move it into place, and leave
        no temporary file behind unless the process dies. */
    method WriteVerified(data: Bytes, salt: nat, fate: Fate) returns (outcome: Outcome)
      modifies this
      // a good file under its final name stays good at every step
      ensures forall s :: Good(old(files), s) ==> Good(files, s) && files[Final(s)] == old(files)[Final(s)]
      // a completed write leaves bytes that hash to the name
      ensures outcome.Stored? ==> Good(files, Hash(data)) && Finals(files) == Finals(old(files))[Hash(data) := data]
      // anything else leaves the final names as they were, or complete
      ensures outcome.Raised? ==> Finals(files) == Finals(old(files))
      ensures outcome.Died? ==> Finals(files) == Finals(old(files)) || Finals(files) == Finals(old(files))[Hash(data) := data]
      // the temporary name is the only other one touched, and it goes
      ensures forall f :: f != Final(Hash(data)) && f != Temp(Hash(data), salt) ==>
                (f in files <==> f in old(files)) && (f in files ==> files[f] == old(files)[f])
      ensures !outcome.Died? && Temp(Hash(data), salt) !in old(files) ==> Temp(Hash(data), salt) !in files
      // it raises exactly when the bytes that landed are not the bytes, or the move fails
      ensures fate.dies.None? ==> (outcome.Raised? <==> !Good(old(files), Hash(data)) && (fate.lands != data || fate.replaceFails))
      // and dies exactly where it is let die: before the bytes land, behind them, or behind the move
      ensures Good(old(files), Hash(data)) ==> outcome.Stored? && files == old(files)
      ensures var lost, tmp := fate.lands != data || fate.replaceFails, Temp(Hash(data), salt);
              !Good(old(files), Hash(data)) ==>
                && (outcome.Died? <==> fate.dies in {Some(0), Some(1)} || (fate.dies == Some(2) && !lost))
                && (outcome.Died? && fate.dies == Some(0) ==> files == old(files))
                && (outcome.Died? && fate.dies == Some(1) ==> files == old(files)[tmp := fate.lands])
                && (outcome.Died? && fate.dies == Some(2) ==> files == (old(files) - {tmp})[Final(Hash(data)) := data])
    {
      hide Finals;
      var sha := Hash(data);
      var dest, tmp := Final(sha), Temp(sha, salt);
      if dest in files && Hash(files[dest]) == sha {
        FinalsMove(files, files, sha, data);
        return Stored;
      }
      if fate.dies == Some(0) { return Died; }
      files := files[tmp := fate.lands];
      FinalsStay(old(files), files);
      if fate.dies == Some(1) { return Died; }
      if Hash(files[tmp]) != sha || fate.replaceFails {
        files := files - {tmp};
        FinalsStay(old(files), files);
        return Raised;
      }
      files := (files - {tmp})[dest := files[tmp]];
      FinalsMove(old(files), files, sha, data);
      if fate.dies == Some(2) { return Died; }
      files := files - {tmp};
      FinalsMove(old(files), files, sha, data);
      outcome := Stored;
    }
  }

  lemma FinalsStay(was: Files, files: Files)
    requires forall f: Name :: f.Final? ==> (f in files <==> f in was) && (f in files ==> files[f] == was[f])
    ensures Finals(files) == Finals(was)
  {
  }

  lemma FinalsMove(was: Files, files: Files, sha: Sha, data: Bytes)
    requires Final(sha) in files && files[Final(sha)] == data
    requires forall f: Name :: f.Final? && f != Final(sha) ==> (f in files <==> f in was) && (f in files ==> files[f] == was[f])
    ensures Finals(files) == Finals(was)[sha := data]
  {
  }

  // --------------------------------------------------------------- the sweep

  const MIN_AGE := 24 * HOUR

  /** The digest a file name stands for when the keep-set is consulted.  Under
      mime/ that is the name up to the first dot, so a temporary file counts as
      its message's; under blobs/ it is the whole name. */
  function KeptAs(mime: bool, f: Name): Option<Sha> {
    if f.Final? || mime then Some(f.sha) else None
  }

  predicate Orphan(mime: bool, keep: set<Sha>, mtime: map<Name, int>, now: int, f: Name) {
    && !(KeptAs(mime, f).Some? && KeptAs(mime, f).value in keep)
    && f in mtime && now - mtime[f] >= MIN_AGE
  }

  /** Unreferenced, but not yet a day old: a capture may be on its way. */
  predicate TooYoung(mime: bool, keep: set<Sha>, mtime: map<Name, int>, now: int, f: Name) {
    && !(KeptAs(mime, f).Some? && KeptAs(mime, f).value in keep)
    && f in mtime && now - mtime[f] < MIN_AGE
  }

  /** A file goes exactly when its last change is a day back and its digest is
      not among those kept; a temporary file has a digest only under mime/. */
  lemma OrphanExactly(mime: bool, keep: set<Sha>, mtime: map<Name, int>, now: int, f: Name)
    ensures Orphan(mime, keep, mtime, now, f) <==>
              (f.sha in keep ==> f.Temp? && !mime) && f in mtime && mtime[f] + 86_400 * SECOND <= now
    ensures TooYoung(mime, keep, mtime, now, f) <==>
              (f.sha in keep ==> f.Temp? && !mime) && f in mtime && now < mtime[f] + 86_400 * SECOND
  {
  }

  /** The bytes all these files take. */
  ghost function Total(files: Files): nat {
    if files == map[] then 0
    else
      var f :| f in files;
      |files[f]| + Total(files - {f})
  }

  lemma {:induction false} TotalTakes(files: Files, f: Name)
    requires f in files
    ensures Total(files) == |files[f]| + Total(files - {f})
  {
    var g :| g in files && Total(files) == |files[g]| + Total(files - {g});
    if g != f {
      TotalTakes(files - {g}, f);
      TotalTakes(files - {f}, g);
      assert files - {g} - {f} == files - {f} - {g};
    }
  }

  function Only(files: Files, names: set<Name>): Files {
    map f | f in files && f in names :: files[f]
  }

  lemma TotalGrows(files: Files, names: set<Name>, f: Name)
    requires f in files && f !in names
    ensures Total(Only(files, names + {f})) == Total(Only(files, names)) + |files[f]|
  {
    TotalTakes(Only(files, names + {f}), f);
    assert Only(files, names + {f}) - {f} == Only(files, names);
  }

  datatype Report = Report(scanned: nat, removed: nat, bytes: nat, recent: nat)

  class Sweeper {
    const store: FileStore

    constructor (store: FileStore)
      ensures this.store == store
    {
      this.store := store;
    }

    /** One directory: exactly the unreferenced files that are a day old go,
        except those the system refuses to unlink; a dry run only counts them. */
    method Sweep(mime: bool, keep: set<Sha>, mtime: map<Name, int>, now: int, dryRun: bool, stuck: set<Name>)
      returns (r: Report)
      requires mtime.Keys == store.files.Keys
      modifies store
      ensures dryRun ==> store.files == old(store.files)
      ensures !dryRun ==>
                store.files == map f | f in old(store.files) && (f in stuck || !Orphan(mime, keep, mtime, now, f)) :: old(store.files)[f]
      ensures forall s :: s in keep && Final(s) in old(store.files) ==> Final(s) in store.files
      ensures r.scanned == |old(store.files)|
      ensures r.removed == |set f | f in old(store.files) && Orphan(mime, keep, mtime, now, f)|
      ensures r.recent == |set f | f in old(store.files) && TooYoung(mime, keep, mtime, now, f)|
      ensures r.bytes == Total(Only(old(store.files), set f | f in old(store.files) && Orphan(mime, keep, mtime, now, f)))
    {
      ghost var was := store.files;
      ghost var gone, young, unlinked;
      r, gone, young, unlinked := Walk(mime, keep, mtime, now, dryRun, stuck);
      assert gone == set f | f in was && Orphan(mime, keep, mtime, now, f);
      assert young == set f | f in was && TooYoung(mime, keep, mtime, now, f);
    }

    method Walk(mime: bool, keep: set<Sha>, mtime: map<Name, int>, now: int, dryRun: bool, stuck: set<Name>)
      returns (r: Report, ghost gone: set<Name>, ghost young: set<Name>, ghost unlinked: set<Name>)
      requires mtime.Keys == store.files.Keys
      modifies store
      ensures store.files == old(store.files) - unlinked
      ensures r.scanned == |old(store.files).Keys| && r.removed == |gone| && r.recent == |young|
      ensures r.bytes == Total(Only(old(store.files), gone))
      ensures forall f :: f in young <==> f in old(store.files) && TooYoung(mime, keep, mtime, now, f)
      ensures forall f :: f in gone <==> f in old(store.files) && Orphan(mime, keep, mtime, now, f)
      ensures forall f :: f in unlinked <==> !dryRun && f !in stuck && f in gone
    {
      hide Orphan, TooYoung, KeptAs, Total, Only, Divided;
      var todo := store.files.Keys;
      ghost var was := store.files;
      r, gone, young, unlinked := Report(0, 0, 0, 0), {}, {}, {};
      NoBytes(was);
      Undivided(mime, keep, mtime, now, was);
      ghost var left: nat := |todo|;
      while todo != {}
        invariant todo <= was.Keys && |todo| == left && r.scanned + left == |was.Keys|
        invariant |gone| == r.removed && r.bytes == Total(Only(was, gone)) && |young| == r.recent
        invariant store.files == was - unlinked
        invariant Divided(mime, keep, mtime, now, was, todo, gone, young)
        invariant forall f :: f in unlinked <==> !dryRun && f !in stuck && f in gone
        decreases |todo|
      {
        var f :| f in todo;
        Divide(mime, keep, mtime, now, was, todo, gone, young, f);
        NextFile(was, unlinked, f);
        Decide(mime, keep, mtime, now, f);
        todo, left := todo - {f}, left - 1;
        r := r.(scanned := r.scanned + 1);
        if KeptAs(mime, f).Some? && KeptAs(mime, f).value in keep { continue; }
        if now - mtime[f] < MIN_AGE {
          r, young := r.(recent := r.recent + 1), young + {f};
          continue;
        }
        TotalGrows(was, gone, f);
        gone := gone + {f};
        r := r.(removed := r.removed + 1, bytes := r.bytes + |store.files[f]|);
        if !dryRun && f !in stuck {
          store.files, unlinked := store.files - {f}, unlinked + {f};
        }
      }
      AllDivided(mime, keep, mtime, now, was, gone, young);
    }
  }

  /** The files looked at so far, by what becomes of them. */
  ghost predicate Divided(mime: bool, keep: set<Sha>, mtime: map<Name, int>, now: int, was: Files, todo: set<Name>,
                          gone: set<Name>, young: set<Name>) {
    && gone !! todo && gone <= was.Keys && young !! todo && young <= was.Keys
    && forall f :: f in was && f !in todo ==>
         (f in gone <==> Orphan(mime, keep, mtime, now, f)) && (f in young <==> TooYoung(mime, keep, mtime, now, f))
  }

  lemma Undivided(mime: bool, keep: set<Sha>, mtime: map<Name, int>, now: int, was: Files)
    ensures Divided(mime, keep, mtime, now, was, was.Keys, {}, {})
  {
  }

  lemma Divide(mime: bool, keep: set<Sha>, mtime: map<Name, int>, now: int, was: Files, todo: set<Name>,
               gone: set<Name>, young: set<Name>, f: Name)
    requires Divided(mime, keep, mtime, now, was, todo, gone, young) && f in todo && f in was
    ensures f !in gone && f !in young
    ensures var o, y := Orphan(mime, keep, mtime, now, f), TooYoung(mime, keep, mtime, now, f);
            Divided(mime, keep, mtime, now, was, todo - {f}, if o then gone + {f} else gone, if y then young + {f} else young)
  {
    hide Orphan, TooYoung;
  }

  lemma AllDivided(mime: bool, keep: set<Sha>, mtime: map<Name, int>, now: int, was: Files, gone: set<Name>, young: set<Name>)
    requires Divided(mime, keep, mtime, now, was, {}, gone, young)
    ensures forall f :: f in gone <==> f in was && Orphan(mime, keep, mtime, now, f)
    ensures forall f :: f in young <==> f in was && TooYoung(mime, keep, mtime, now, f)
  {
    hide Orphan, TooYoung;
  }

  lemma NoBytes(files: Files)
    ensures Total(Only(files, {})) == 0
  {
    assert Only(files, {}) == map[];
  }

  lemma Decide(mime: bool, keep: set<Sha>, mtime: map<Name, int>, now: int, f: Name)
    requires f in mtime
    ensures Orphan(mime, keep, mtime, now, f) <==>
              !(KeptAs(mime, f).Some? && KeptAs(mime, f).value in keep) && !(now - mtime[f] < MIN_AGE)
    ensures TooYoung(mime, keep, mtime, now, f) <==>
              !(KeptAs(mime, f).Some? && KeptAs(mime, f).value in keep) && now - mtime[f] < MIN_AGE
  {
  }

  lemma NextFile(was: Files, unlinked: set<Name>, f: Name)
    requires f in was && f !in unlinked
    ensures f in was - unlinked && (was - unlinked)[f] == was[f]
    ensures (was - unlinked) - {f} == was - (unlinked + {f})
  {
  }
}
