/**
 Images of marketplace products.  Unlike the Kayan tables these are keyed by product and
 sort order, so one file may stand in several places of the list.
 */
module MarketImages {
  import opened Wrappers
  import opened Seqs

  datatype ImageRow = ImageRow(productId: int, fileId: int, objectKey: string, sortOrder: int)
  datatype File = File(objectKey: string, purpose: string, status: string, uploaderId: Option<int>, owner: Option<int>)
  type Files = map<int, File>

  datatype Error = FileMissing(id: int) | WrongPurpose(id: int) | NotOwned(id: int) | NotUploaded(id: int)

  // A missing uploader, and an id that is no positive integer, is nobody.
  predicate UploadedBy(file: File, actor: int) {
    file.uploaderId == Some(actor) && actor > 0
  }

  function Problem(files: Files, actor: int, id: int): Option<Error> {
    if id !in files then Some(FileMissing(id))
    else if files[id].purpose != "product_image" then Some(WrongPurpose(id))
    else if !UploadedBy(files[id], actor) then Some(NotOwned(id))
    else if files[id].status != "uploaded" then Some(NotUploaded(id))
    else None
  }

  // An uploaded product image of the actor's own; nobody has an id of 0 or less.
  predicate OwnUpload(files: Files, actor: int, id: int) {
    && id in files && files[id].purpose == "product_image" && files[id].status == "uploaded"
    && files[id].uploaderId == Some(actor) && actor >= 1
  }

  /** What is wrong with a file, in this order: it is missing, for another purpose, somebody else's, not uploaded. */
  lemma ProblemIs(files: Files, actor: int, id: int)
    ensures Problem(files, actor, id) == None <==> OwnUpload(files, actor, id)
    ensures id !in files ==> Problem(files, actor, id) == Some(FileMissing(id))
    ensures id in files && files[id].purpose != "product_image" ==> Problem(files, actor, id) == Some(WrongPurpose(id))
    ensures id in files && files[id].purpose == "product_image" && (files[id].uploaderId != Some(actor) || actor <= 0) ==>
      Problem(files, actor, id) == Some(NotOwned(id))
    ensures id in files && files[id].purpose == "product_image" && files[id].uploaderId == Some(actor) && actor > 0 ==>
      (files[id].status != "uploaded" ==> Problem(files, actor, id) == Some(NotUploaded(id)))
  {
  }

  predicate AllUsable(files: Files, actor: int, ids: seq<int>) {
    forall i :: 0 <= i < |ids| ==> OwnUpload(files, actor, ids[i])
  }

  function OfOthers(product: int): ImageRow -> bool {
    (r: ImageRow) => r.productId != product
  }

  // The unique key (product_id, sort_order).
  predicate Keyed(rows: seq<ImageRow>) {
    forall i, j :: 0 <= i < j < |rows| ==> rows[i].productId != rows[j].productId || rows[i].sortOrder != rows[j].sortOrder
  }

  function NewImages(files: Files, product: int, ids: seq<int>): (r: seq<ImageRow>)
    requires forall i :: 0 <= i < |ids| ==> ids[i] in files
    ensures |r| == |ids|
    ensures forall i :: 0 <= i < |ids| ==> r[i] == ImageRow(product, ids[i], files[ids[i]].objectKey, i)
  {
    seq(|ids|, i requires 0 <= i < |ids| => ImageRow(product, ids[i], files[ids[i]].objectKey, i))
  }

  function Claimed(files: Files, product: int, ids: seq<int>): Files {
    map id | id in files :: if id in ids then files[id].(owner := Some(product)) else files[id]
  }

  /** A claimed file belongs to the product; in all else, and for every other file, nothing changes. */
  lemma ClaimedIs(files: Files, product: int, ids: seq<int>)
    ensures Claimed(files, product, ids).Keys == files.Keys
    ensures forall id :: id in files ==>
      Claimed(files, product, ids)[id] ==
        File(files[id].objectKey, files[id].purpose, files[id].status, files[id].uploaderId,
             if exists i :: 0 <= i < |ids| && ids[i] == id then Some(product) else files[id].owner)
  {
  }

  lemma {:induction false} OthersKeyed(rows: seq<ImageRow>, product: int)
    requires Keyed(rows)
    ensures Keyed(Filter(OfOthers(product), rows))
  {
    if rows != [] {
      var n := |rows| - 1;
      OthersKeyed(rows[..n], product);
      FilterMembers(OfOthers(product), rows[..n]);
      var f := Filter(OfOthers(product), rows[..n]);
      forall i | 0 <= i < |f| ensures f[i].productId != rows[n].productId || f[i].sortOrder != rows[n].sortOrder {
        assert f[i] in f;
        var k :| 0 <= k < n && rows[..n][k] == f[i];
      }
    }
  }

  class ProductImages {
    var rows: seq<ImageRow>
    var files: Files

    constructor (files: Files)
      ensures rows == [] && this.files == files
    {
      rows := [];
      this.files := files;
    }

    // Runs inside the caller's transaction: when it refuses, the old rows are already deleted.
    method SyncProductImages(actor: int, product: int, ids: seq<int>) returns (error: Option<Error>)
      requires Keyed(rows)
      modifies this
      ensures error.None? <==> AllUsable(old(files), actor, ids)
      ensures error.None? ==>
        (&& (forall i :: 0 <= i < |ids| ==> ids[i] in old(files))
         && rows == Filter(OfOthers(product), old(rows)) + NewImages(old(files), product, ids)
         && files == Claimed(old(files), product, ids)
         && forall id :: id in files <==> id in old(files))
      ensures error.Some? ==>
        (&& rows == Filter(OfOthers(product), old(rows))
         && files == old(files)
         && exists i :: 0 <= i < |ids| && AllUsable(files, actor, ids[..i]) && Problem(files, actor, ids[i]) == error)
      ensures forall row: ImageRow :: row.productId != product ==> (row in rows <==> row in old(rows))
      ensures Keyed(rows)
    {
      OthersKeyed(rows, product);
      FilterMembers(OfOthers(product), rows);
      rows := Filter(OfOthers(product), rows);
      ghost var kept := rows;
      assert forall i :: 0 <= i < |kept| ==> kept[i] in kept;
      if |ids| == 0 {
        assert Claimed(files, product, ids) == files;
        return None;
      }
      for i := 0 to |ids|
        invariant rows == kept && files == old(files)
        invariant AllUsable(files, actor, ids[..i])
      {
        var id := ids[i];
        error := None;
        if id !in files {
          error := Some(FileMissing(id));
        } else if files[id].purpose != "product_image" {
          error := Some(WrongPurpose(id));
        } else if files[id].uploaderId.None? || files[id].uploaderId.value <= 0 || files[id].uploaderId.value != actor {
          error := Some(NotOwned(id));
        } else if files[id].status != "uploaded" {
          error := Some(NotUploaded(id));
        }
        ProblemIs(files, actor, id);
        assert error == Problem(files, actor, ids[i]);
        if error.Some? {
          assert !OwnUpload(files, actor, ids[i]);
          return;
        }
        assert ids[..i + 1] == ids[..i] + [ids[i]];
      }
      assert ids[..|ids|] == ids;
      assert forall i :: 0 <= i < |ids| ==> OwnUpload(files, actor, ids[i]) && ids[i] in files;
      rows := rows + NewImages(files, product, ids);
      files := Claimed(files, product, ids);
      error := None;
    }
  }
}
