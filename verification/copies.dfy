/** The archive copy on disk, and the check that both the verifier and the
    deleter run against it. */
module Copies {
  import opened Mail

  /** Final names only: what lies under mime/<sha>.eml and blobs/<sha>. */
  datatype Disk = Disk(mime: map<Sha, Bytes>, blobs: map<Sha, Bytes>)

  datatype Check = Fine(hashed: Sha) | Problem(reason: string) | Raised

  /** The file under this name exists and hashes to it. */
  predicate GoodMime(d: Disk, s: Sha) {
    s in d.mime && Hash(d.mime[s]) == s
  }

  /** First attachment in inventory order that the disk cannot back, if any. */
  function CheckBlobs(blobs: map<Sha, Bytes>, atts: seq<Attachment>, hashed: Sha): Check {
    if atts == [] then Fine(hashed)
    else
      var a := atts[0];
      if a.sha.None? then CheckBlobs(blobs, atts[1..], hashed)
      else if a.sha.value.Malformed? then Raised
      else if a.sha.value !in blobs then Problem("blob missing")
      else if a.size.Some? && |blobs[a.sha.value]| != a.size.value then Problem("blob size mismatch")
      else CheckBlobs(blobs, atts[1..], hashed)
  }

  function CheckFiles(d: Disk, sha: Sha, atts: seq<Attachment>): Check {
    if sha.Malformed? then Raised
    else if sha !in d.mime then Problem("mime file missing")
    else if Hash(d.mime[sha]) != sha then Problem("mime hash mismatch")
    else CheckBlobs(d.blobs, atts, Hash(d.mime[sha]))
  }

  /** delete.py: no recorded digest is a problem, not an exception. */
  function CopyProblem(d: Disk, sha: Option<Sha>, atts: seq<Attachment>): Check {
    if sha.None? then Problem("no mime_sha256 recorded") else CheckFiles(d, sha.value, atts)
  }

  datatype Verdict = Promote(hashed: Sha) | Mismatch(reason: string) | Failed

  /** verify.py: the changekey fails closed, and a poisoned row only fails. */
  function Evaluate(d: Disk, row: Row, live: Option<string>, atts: seq<Attachment>): Verdict {
    if !Usable(row.capturedCk) || !Usable(live) then Mismatch("changekey unavailable")
    else if live != row.capturedCk then Mismatch("changekey changed since capture")
    else if row.sha.None? then Failed
    else match CheckFiles(d, row.sha.value, atts)
      case Fine(h) => Promote(h)
      case Problem(r) => Mismatch(r)
      case Raised => Failed
  }

  /** One inventory line the disk backs: no standalone bytes, or a blob of the
      recorded size. */
  predicate Backed(blobs: map<Sha, Bytes>, a: Attachment) {
    a.sha.Some? ==>
      && a.sha.value.Sha256?
      && a.sha.value in blobs
      && (a.size.Some? ==> |blobs[a.sha.value]| == a.size.value)
  }

  lemma {:induction false} BlobsFineExactly(blobs: map<Sha, Bytes>, atts: seq<Attachment>, h: Sha)
    ensures CheckBlobs(blobs, atts, h).Fine? <==> forall k :: 0 <= k < |atts| ==> Backed(blobs, atts[k])
    ensures CheckBlobs(blobs, atts, h).Fine? ==> CheckBlobs(blobs, atts, h).hashed == h
  {
    if atts != [] {
      BlobsFineExactly(blobs, atts[1..], h);
      assert forall k :: 0 < k < |atts| ==> atts[k] == atts[1..][k - 1];
      if Backed(blobs, atts[0]) && forall k :: 0 <= k < |atts[1..]| ==> Backed(blobs, atts[1..][k]) {
        forall k | 0 <= k < |atts| ensures Backed(blobs, atts[k]) {
          if k > 0 { assert atts[k] == atts[1..][k - 1]; }
        }
      }
    }
  }

  /** The first inventory line the disk does not back, if there is one. */
  ghost predicate FirstUnbacked(blobs: map<Sha, Bytes>, atts: seq<Attachment>, k: nat) {
    k < |atts| && !Backed(blobs, atts[k]) && forall j :: 0 <= j < k ==> Backed(blobs, atts[j])
  }

  /** It decides: a digest that is none raises, and a blob that is missing or of
      another size is a problem. */
  lemma {:induction false} BlobsFailExactly(blobs: map<Sha, Bytes>, atts: seq<Attachment>, h: Sha)
    ensures CheckBlobs(blobs, atts, h).Raised? <==>
              exists k: nat :: FirstUnbacked(blobs, atts, k) && atts[k].sha.value.Malformed?
    ensures CheckBlobs(blobs, atts, h).Problem? <==>
              exists k: nat :: FirstUnbacked(blobs, atts, k) && atts[k].sha.value.Sha256?
  {
    if atts != [] {
      var rest := atts[1..];
      BlobsFailExactly(blobs, rest, h);
      if Backed(blobs, atts[0]) {
        forall k: nat ensures FirstUnbacked(blobs, atts, k + 1) <==> FirstUnbacked(blobs, rest, k) {
          UnbackedLater(blobs, atts, k);
        }
        if k: nat :| FirstUnbacked(blobs, atts, k) && atts[k].sha.value.Malformed? {
          assert FirstUnbacked(blobs, rest, k - 1) && atts[k] == rest[k - 1];
        }
        if k: nat :| FirstUnbacked(blobs, atts, k) && atts[k].sha.value.Sha256? {
          assert FirstUnbacked(blobs, rest, k - 1) && atts[k] == rest[k - 1];
        }
        if k: nat :| FirstUnbacked(blobs, rest, k) && rest[k].sha.value.Malformed? {
          assert FirstUnbacked(blobs, atts, k + 1) && atts[k + 1] == rest[k];
        }
        if k: nat :| FirstUnbacked(blobs, rest, k) && rest[k].sha.value.Sha256? {
          assert FirstUnbacked(blobs, atts, k + 1) && atts[k + 1] == rest[k];
        }
      } else {
        assert FirstUnbacked(blobs, atts, 0);
      }
    }
  }

  lemma UnbackedLater(blobs: map<Sha, Bytes>, atts: seq<Attachment>, k: nat)
    requires atts != [] && Backed(blobs, atts[0])
    ensures FirstUnbacked(blobs, atts, k + 1) <==> FirstUnbacked(blobs, atts[1..], k)
  {
    if k < |atts| - 1 {
      assert atts[1..][k] == atts[k + 1];
      assert forall j :: 0 <= j < k ==> atts[1..][j] == atts[j + 1];
      if FirstUnbacked(blobs, atts[1..], k) {
        forall j | 0 <= j < k + 1 ensures Backed(blobs, atts[j]) {
          if j > 0 { assert atts[j] == atts[1..][j - 1]; }
        }
      }
    }
  }

  /** The disk check passes exactly when the recorded digest names a file that
      hashes to it and every attachment line is backed. */
  lemma CopyFineExactly(d: Disk, sha: Option<Sha>, atts: seq<Attachment>)
    ensures CopyProblem(d, sha, atts).Fine? <==>
              && sha.Some? && sha.value.Sha256? && GoodMime(d, sha.value)
              && forall k :: 0 <= k < |atts| ==> Backed(d.blobs, atts[k])
    ensures CopyProblem(d, sha, atts).Fine? ==> CopyProblem(d, sha, atts).hashed == sha.value
  {
    if sha.Some? && sha.value.Sha256? && GoodMime(d, sha.value) {
      BlobsFineExactly(d.blobs, atts, Hash(d.mime[sha.value]));
    }
  }

  /** The check on a row with a trusted changekey ends in one of three ways. */
  lemma FilesFailExactly(d: Disk, sha: Sha, atts: seq<Attachment>)
    ensures CheckFiles(d, sha, atts).Raised? <==>
              sha.Malformed? ||
              (GoodMime(d, sha) && exists k: nat :: FirstUnbacked(d.blobs, atts, k) && atts[k].sha.value.Malformed?)
    ensures CheckFiles(d, sha, atts).Problem? <==>
              sha.Sha256? &&
              (!GoodMime(d, sha) || exists k: nat :: FirstUnbacked(d.blobs, atts, k) && atts[k].sha.value.Sha256?)
  {
    if sha.Sha256? && GoodMime(d, sha) { BlobsFailExactly(d.blobs, atts, Hash(d.mime[sha])); }
  }

  /** A capture is given up exactly when its changekey is missing on either side
      or has moved, or when its digests are well-formed and the file, or the
      first inventory line that is not backed, is missing or wrong. */
  lemma MismatchExactly(d: Disk, row: Row, live: Option<string>, atts: seq<Attachment>)
    ensures Evaluate(d, row, live, atts).Mismatch? <==>
              || row.capturedCk in {None, Some("")} || live in {None, Some("")} || live != row.capturedCk
              || (row.sha.Some? && row.sha.value.Sha256? &&
                  (!GoodMime(d, row.sha.value) ||
                   exists k: nat :: FirstUnbacked(d.blobs, atts, k) && atts[k].sha.value.Sha256?))
    ensures row.capturedCk in {None, Some("")} || live in {None, Some("")} ==>
              Evaluate(d, row, live, atts) == Mismatch("changekey unavailable")
  {
    if row.sha.Some? { FilesFailExactly(d, row.sha.value, atts); }
  }

  /** A row cannot be judged exactly when its changekey is trusted and the first
      thing the check meets is a digest that is absent or malformed. */
  lemma FailedExactly(d: Disk, row: Row, live: Option<string>, atts: seq<Attachment>)
    ensures Evaluate(d, row, live, atts).Failed? <==>
              && row.capturedCk !in {None, Some("")} && live == row.capturedCk
              && (row.sha.None? || row.sha.value.Malformed? ||
                  (GoodMime(d, row.sha.value) &&
                   exists k: nat :: FirstUnbacked(d.blobs, atts, k) && atts[k].sha.value.Malformed?))
  {
    if row.sha.Some? { FilesFailExactly(d, row.sha.value, atts); }
  }

  /** The deleter's check of the same copy: a problem where the verifier gives
      the capture up, and also when no digest is recorded at all. */
  lemma CopyFailsExactly(d: Disk, sha: Option<Sha>, atts: seq<Attachment>)
    ensures CopyProblem(d, sha, atts).Raised? <==>
              sha.Some? && (sha.value.Malformed? ||
                (GoodMime(d, sha.value) && exists k: nat :: FirstUnbacked(d.blobs, atts, k) && atts[k].sha.value.Malformed?))
  {
    if sha.Some? { FilesFailExactly(d, sha.value, atts); }
  }

  /** Promotion is exactly: a trusted changekey that has not moved, and a copy
      the deleter's own check would accept. */
  lemma PromoteExactly(d: Disk, row: Row, live: Option<string>, atts: seq<Attachment>)
    ensures Evaluate(d, row, live, atts).Promote? <==>
              Usable(live) && live == row.capturedCk && CopyProblem(d, row.sha, atts).Fine?
    ensures Evaluate(d, row, live, atts).Promote? ==> row.sha == Some(Evaluate(d, row, live, atts).hashed)
  {
    CopyFineExactly(d, row.sha, atts);
  }
}
