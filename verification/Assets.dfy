/**
 Images and files of products, faults and galleries: replacing them row by row inside a
 transaction, and attaching them to a list of parents from one query.
 */
module Assets {
  import opened Wrappers
  import opened Seqs
  import opened Grouping

  // ---------- Tables ----------

  // Faults and galleries have images only.  Products have both, and one unique key (parent, file) over both.
  datatype Kind = Image | OtherFile
  datatype AssetRow = AssetRow(id: int, parentId: int, fileId: int, kind: Kind, sortOrder: int)

  datatype FileInfo = FileInfo(purpose: string, status: string, mimeType: Option<string>)
  type Files = map<int, FileInfo>

  datatype Error = DuplicateAsset | MissingFile | FileNotFound(id: int) | NotUploaded(id: int) | WrongPurpose(id: int) | NotAnImage(id: int)

  function Slot(parent: int, kind: Kind): AssetRow -> bool {
    (r: AssetRow) => r.parentId == parent && r.kind == kind
  }

  function OutsideSlot(parent: int, kind: Kind): AssetRow -> bool {
    (r: AssetRow) => !(r.parentId == parent && r.kind == kind)
  }

  function FileIds(rows: seq<AssetRow>): (r: seq<int>)
    ensures |r| == |rows|
    ensures forall i :: 0 <= i < |rows| ==> r[i] == rows[i].fileId
  {
    seq(|rows|, i requires 0 <= i < |rows| => rows[i].fileId)
  }

  // ---------- Replacing a slot, insert by insert ----------

  // How far the inserts have come; identity values are drawn even by a refused insert.
  datatype Progress = Progress(rows: seq<AssetRow>, nextId: int, error: Option<Error>)

  predicate Has(rows: seq<AssetRow>, parent: int, file: int) {
    exists i :: 0 <= i < |rows| && rows[i].parentId == parent && rows[i].fileId == file
  }

  function Insert(p: Progress, files: Files, parent: int, file: int, kind: Kind, sortOrder: int): Progress {
    if Has(p.rows, parent, file) then Progress(p.rows, p.nextId + 1, Some(DuplicateAsset))
    else if file !in files then Progress(p.rows, p.nextId + 1, Some(MissingFile))
    else Progress(p.rows + [AssetRow(p.nextId, parent, file, kind, sortOrder)], p.nextId + 1, None)
  }

  function InsertAll(start: Progress, files: Files, parent: int, ids: seq<int>, kind: Kind): Progress {
    if ids == [] then start
    else
      var n := |ids| - 1;
      var p := InsertAll(start, files, parent, ids[..n], kind);
      if p.error.Some? then p else Insert(p, files, parent, ids[n], kind, n)
  }

  function Sync(rows: seq<AssetRow>, nextId: int, files: Files, parent: int, ids: seq<int>, kind: Kind): Progress {
    InsertAll(Progress(Filter(OutsideSlot(parent, kind), rows), nextId, None), files, parent, ids, kind)
  }

  // ---------- When it succeeds, and what it leaves ----------

  function NewRows(parent: int, ids: seq<int>, kind: Kind, firstId: int): (r: seq<AssetRow>)
    ensures |r| == |ids|
    ensures forall i :: 0 <= i < |ids| ==> r[i] == AssetRow(firstId + i, parent, ids[i], kind, i)
  {
    seq(|ids|, i requires 0 <= i < |ids| => AssetRow(firstId + i, parent, ids[i], kind, i))
  }

  predicate Distinct(ids: seq<int>) {
    forall i, j :: 0 <= i < j < |ids| ==> ids[i] != ids[j]
  }

  predicate Exist(files: Files, ids: seq<int>) {
    forall i :: 0 <= i < |ids| ==> ids[i] in files
  }

  predicate NoneThere(rows: seq<AssetRow>, parent: int, ids: seq<int>) {
    forall i :: 0 <= i < |ids| ==> !Has(rows, parent, ids[i])
  }

  lemma HasAppended(rows: seq<AssetRow>, added: seq<AssetRow>, parent: int, file: int)
    ensures Has(rows + added, parent, file) <==> Has(rows, parent, file) || Has(added, parent, file)
  {
    var all := rows + added;
    if i :| 0 <= i < |rows| && rows[i].parentId == parent && rows[i].fileId == file {
      assert all[i] == rows[i];
    }
    if i :| 0 <= i < |added| && added[i].parentId == parent && added[i].fileId == file {
      assert all[|rows| + i] == added[i];
    }
  }

  lemma HasNew(parent: int, ids: seq<int>, kind: Kind, firstId: int, file: int)
    ensures Has(NewRows(parent, ids, kind, firstId), parent, file) <==> file in ids
  {
    var r := NewRows(parent, ids, kind, firstId);
    if file in ids {
      var i :| 0 <= i < |ids| && ids[i] == file;
      assert r[i].fileId == file;
    }
  }

  lemma OneMoreFile(rows: seq<AssetRow>, files: Files, parent: int, init: seq<int>, file: int)
    ensures Exist(files, init + [file]) <==> Exist(files, init) && file in files
    ensures Distinct(init + [file]) <==> Distinct(init) && file !in init
    ensures NoneThere(rows, parent, init + [file]) <==> NoneThere(rows, parent, init) && !Has(rows, parent, file)
  {
    var ids := init + [file];
    assert ids[|init|] == file;
    assert forall i :: 0 <= i < |init| ==> ids[i] == init[i];
  }

  predicate CanInsert(rows: seq<AssetRow>, files: Files, parent: int, ids: seq<int>) {
    Exist(files, ids) && Distinct(ids) && NoneThere(rows, parent, ids)
  }

  function Inserted(start: Progress, parent: int, ids: seq<int>, kind: Kind): Progress {
    Progress(start.rows + NewRows(parent, ids, kind, start.nextId), start.nextId + |ids|, None)
  }

  lemma InsertOneMore(start: Progress, files: Files, parent: int, init: seq<int>, file: int, kind: Kind)
    requires CanInsert(start.rows, files, parent, init)
    ensures var p := Insert(Inserted(start, parent, init, kind), files, parent, file, kind, |init|);
      && (p.error.None? <==> CanInsert(start.rows, files, parent, init + [file]))
      && (p.error.None? ==> p == Inserted(start, parent, init + [file], kind))
  {
    var added := NewRows(parent, init, kind, start.nextId);
    HasAppended(start.rows, added, parent, file);
    HasNew(parent, init, kind, start.nextId, file);
    OneMoreFile(start.rows, files, parent, init, file);
    assert start.rows + added + [AssetRow(start.nextId + |init|, parent, file, kind, |init|)]
        == start.rows + NewRows(parent, init + [file], kind, start.nextId);
  }

  /** The inserts all go through exactly when the files exist, are listed once each and are not there yet. */
  lemma InsertAllOneMore(start: Progress, files: Files, parent: int, init: seq<int>, file: int, kind: Kind)
    ensures InsertAll(start, files, parent, init + [file], kind) ==
      var p := InsertAll(start, files, parent, init, kind);
      if p.error.Some? then p else Insert(p, files, parent, file, kind, |init|)
  {
    assert (init + [file])[..|init|] == init;
  }

  lemma {:induction false} InsertAllIff(start: Progress, files: Files, parent: int, ids: seq<int>, kind: Kind)
    requires start.error.None?
    ensures InsertAll(start, files, parent, ids, kind).error.None? <==> CanInsert(start.rows, files, parent, ids)
    ensures CanInsert(start.rows, files, parent, ids) ==>
      InsertAll(start, files, parent, ids, kind) == Inserted(start, parent, ids, kind)
  {
    if ids == [] {
      assert start.rows + NewRows(parent, ids, kind, start.nextId) == start.rows;
    } else {
      var n := |ids| - 1;
      var init, file := ids[..n], ids[n];
      InsertAllIff(start, files, parent, init, kind);
      assert ids == init + [file];
      InsertAllOneMore(start, files, parent, init, file, kind);
      OneMoreFile(start.rows, files, parent, init, file);
      if CanInsert(start.rows, files, parent, init) {
        InsertOneMore(start, files, parent, init, file, kind);
      }
    }
  }

  function Other(kind: Kind): Kind {
    if kind == Image then OtherFile else Image
  }

  predicate NoneOfOtherKind(rows: seq<AssetRow>, parent: int, ids: seq<int>, kind: Kind) {
    forall i :: 0 <= i < |rows| && rows[i].parentId == parent && rows[i].kind == Other(kind) ==> rows[i].fileId !in ids
  }

  /**
   Replacing a slot succeeds exactly when every file exists, none is listed twice and
   none is already there in the parent's other slot; then the slot holds the new rows and
   every other row is as it was.
   */
  lemma SyncIff(rows: seq<AssetRow>, nextId: int, files: Files, parent: int, ids: seq<int>, kind: Kind)
    ensures var p := Sync(rows, nextId, files, parent, ids, kind);
      && (p.error.None? <==> Exist(files, ids) && Distinct(ids) && NoneOfOtherKind(rows, parent, ids, kind))
      && (p.error.None? ==>
            p == Progress(Filter(OutsideSlot(parent, kind), rows) + NewRows(parent, ids, kind, nextId), nextId + |ids|, None))
  {
    var kept := Filter(OutsideSlot(parent, kind), rows);
    InsertAllIff(Progress(kept, nextId, None), files, parent, ids, kind);
    FilterMembers(OutsideSlot(parent, kind), rows);
    if NoneThere(kept, parent, ids) {
      forall i | 0 <= i < |rows| && rows[i].parentId == parent && rows[i].kind == Other(kind) ensures rows[i].fileId !in ids {
        assert rows[i] in kept;
        var k :| 0 <= k < |kept| && kept[k] == rows[i];
        assert Has(kept, parent, rows[i].fileId);
      }
    }
    if NoneOfOtherKind(rows, parent, ids, kind) {
      forall i, k | 0 <= i < |ids| && 0 <= k < |kept| ensures kept[k].parentId == parent ==> kept[k].fileId != ids[i] {
        assert kept[k] in kept;
        var j :| 0 <= j < |rows| && rows[j] == kept[k];
      }
    }
  }

  // ---------- The round trip ----------

  // ORDER BY parent, type, sort order, id.
  function AssetOrder(): (AssetRow, AssetRow) -> bool {
    (a: AssetRow, b: AssetRow) =>
      || a.parentId < b.parentId
      || (a.parentId == b.parentId && a.kind == OtherFile && b.kind == Image)
      || (a.parentId == b.parentId && a.kind == b.kind && (a.sortOrder < b.sortOrder || (a.sortOrder == b.sortOrder && a.id < b.id)))
  }

  predicate ValidRows(rows: seq<AssetRow>, nextId: int) {
    && (forall i :: 0 <= i < |rows| ==> rows[i].id < nextId)
    && (forall i, j :: 0 <= i < j < |rows| ==> rows[i].id < rows[j].id)
    && (forall i, j :: 0 <= i < j < |rows| ==> rows[i].parentId != rows[j].parentId || rows[i].fileId != rows[j].fileId)
  }

  lemma RowsAreDecided(rows: seq<AssetRow>, nextId: int)
    requires ValidRows(rows, nextId)
    ensures Decides(AssetOrder(), rows)
  {
    forall i, j | 0 <= i < |rows| && 0 <= j < |rows| && rows[i] != rows[j]
      ensures AssetOrder()(rows[i], rows[j]) || AssetOrder()(rows[j], rows[i])
    {
      assert i < j || j < i;
    }
  }

  lemma SlotAfterSync(rows: seq<AssetRow>, nextId: int, parent: int, ids: seq<int>, kind: Kind, p: int, k: Kind)
    ensures var after := Filter(OutsideSlot(parent, kind), rows) + NewRows(parent, ids, kind, nextId);
      Filter(Slot(p, k), after) ==
        if p == parent && k == kind then NewRows(parent, ids, kind, nextId) else Filter(Slot(p, k), rows)
  {
    var kept, added := Filter(OutsideSlot(parent, kind), rows), NewRows(parent, ids, kind, nextId);
    FilterConcat(Slot(p, k), kept, added);
    if p == parent && k == kind {
      FilterMembers(OutsideSlot(parent, kind), rows);
      assert forall i :: 0 <= i < |kept| ==> kept[i] in kept;
      FilterNone(Slot(p, k), kept);
      FilterEvery(Slot(p, k), added);
    } else {
      FilterNone(Slot(p, k), added);
      FilterFilter(Slot(p, k), OutsideSlot(parent, kind), Slot(p, k), rows);
    }
  }

  lemma NewRowsInOrder(parent: int, ids: seq<int>, kind: Kind, firstId: int)
    ensures Arranged(AssetOrder(), NewRows(parent, ids, kind, firstId))
    ensures Decides(AssetOrder(), NewRows(parent, ids, kind, firstId))
  {
  }

  // Read in the order of the query, a replaced slot holds the listed files in the listed order.
  lemma SyncThenRead(rows: seq<AssetRow>, nextId: int, files: Files, parent: int, ids: seq<int>, kind: Kind, answer: seq<AssetRow>)
    requires var p := Sync(rows, nextId, files, parent, ids, kind);
      && p.error.None?
      && multiset(answer) == multiset(Filter(Slot(parent, kind), p.rows)) && Arranged(AssetOrder(), answer)
    ensures FileIds(answer) == ids
    ensures forall i :: 0 <= i < |answer| ==> answer[i].sortOrder == i
  {
    SyncIff(rows, nextId, files, parent, ids, kind);
    SlotAfterSync(rows, nextId, parent, ids, kind, parent, kind);
    NewRowsInOrder(parent, ids, kind, nextId);
    var made := NewRows(parent, ids, kind, nextId);
    assert multiset(answer) == multiset(made);
    OneArrangement(AssetOrder(), made, answer);
  }

  /** Every slot but the replaced one keeps its rows, of this parent and of all others. */
  lemma SyncKeepsOthers(rows: seq<AssetRow>, nextId: int, files: Files, parent: int, ids: seq<int>, kind: Kind, p: int, k: Kind)
    requires Sync(rows, nextId, files, parent, ids, kind).error.None?
    requires p != parent || k != kind
    ensures Filter(Slot(p, k), Sync(rows, nextId, files, parent, ids, kind).rows) == Filter(Slot(p, k), rows)
  {
    SyncIff(rows, nextId, files, parent, ids, kind);
    SlotAfterSync(rows, nextId, parent, ids, kind, p, k);
  }

  // ---------- The unique key survives ----------

  // An earlier row `a` and a later row `b` that could not both be there.
  function Clash(): (AssetRow, AssetRow) -> bool {
    (b: AssetRow, a: AssetRow) => a.id >= b.id || (a.parentId == b.parentId && a.fileId == b.fileId)
  }

  lemma FilterValid(p: AssetRow -> bool, rows: seq<AssetRow>, nextId: int)
    requires ValidRows(rows, nextId)
    ensures ValidRows(Filter(p, rows), nextId)
  {
    assert Arranged(Clash(), rows);
    FilterArranged(Clash(), p, rows);
    FilterMembers(p, rows);
    var f := Filter(p, rows);
    forall i | 0 <= i < |f| ensures f[i].id < nextId {
      assert f[i] in f;
    }
    forall i, j | 0 <= i < j < |f| ensures !Clash()(f[j], f[i]) {
    }
  }

  lemma SyncKeepsValid(rows: seq<AssetRow>, nextId: int, files: Files, parent: int, ids: seq<int>, kind: Kind)
    requires ValidRows(rows, nextId)
    ensures var p := Sync(rows, nextId, files, parent, ids, kind);
      p.error.None? ==> ValidRows(p.rows, p.nextId)
  {
    var kept := Filter(OutsideSlot(parent, kind), rows);
    FilterValid(OutsideSlot(parent, kind), rows, nextId);
    InsertAllIff(Progress(kept, nextId, None), files, parent, ids, kind);
    if CanInsert(kept, files, parent, ids) {
      forall i, j | 0 <= i < |kept| && 0 <= j < |ids| ensures kept[i].parentId != parent || kept[i].fileId != ids[j] {
        assert !Has(kept, parent, ids[j]);
      }
    }
  }

  // ---------- Both slots of a product in one update ----------

  function SyncGiven(p: Progress, files: Files, parent: int, ids: Option<seq<int>>, kind: Kind): Progress {
    if p.error.Some? || ids.None? then p else Sync(p.rows, p.nextId, files, parent, ids.value, kind)
  }

  // Images first, then files.
  function Replace(rows: seq<AssetRow>, nextId: int, files: Files, parent: int,
                   images: Option<seq<int>>, others: Option<seq<int>>): Progress {
    SyncGiven(SyncGiven(Progress(rows, nextId, None), files, parent, images, Image), files, parent, others, OtherFile)
  }

  lemma NoneOfOtherKindSplit(a: seq<AssetRow>, b: seq<AssetRow>, parent: int, ids: seq<int>, kind: Kind)
    ensures NoneOfOtherKind(a + b, parent, ids, kind) <==> NoneOfOtherKind(a, parent, ids, kind) && NoneOfOtherKind(b, parent, ids, kind)
  {
    assert forall i :: 0 <= i < |a| ==> (a + b)[i] == a[i];
    assert forall i :: 0 <= i < |b| ==> (a + b)[|a| + i] == b[i];
  }

  lemma ImagesAfterSync(rows: seq<AssetRow>, nextId: int, parent: int, images: seq<int>, others: seq<int>)
    ensures NoneOfOtherKind(Filter(OutsideSlot(parent, Image), rows) + NewRows(parent, images, Image, nextId), parent, others, OtherFile)
      <==> forall i, j :: 0 <= i < |images| && 0 <= j < |others| ==> images[i] != others[j]
  {
    var kept, added := Filter(OutsideSlot(parent, Image), rows), NewRows(parent, images, Image, nextId);
    FilterMembers(OutsideSlot(parent, Image), rows);
    assert forall i :: 0 <= i < |kept| ==> kept[i] in kept;
    NoneOfOtherKindSplit(kept, added, parent, others, OtherFile);
    if NoneOfOtherKind(added, parent, others, OtherFile) {
      forall i, j | 0 <= i < |images| && 0 <= j < |others| ensures images[i] != others[j] {
        assert added[i].fileId !in others;
      }
    }
  }

  /**
   An update of both slots goes through exactly when the files exist, no list repeats one,
   the lists share none, and no listed image is among the product's files so far.  What the
   product's images were so far does not matter.
   */
  lemma ReplaceBothIff(rows: seq<AssetRow>, nextId: int, files: Files, parent: int, images: seq<int>, others: seq<int>)
    ensures Replace(rows, nextId, files, parent, Some(images), Some(others)).error.None? <==>
      && Exist(files, images) && Exist(files, others) && Distinct(images) && Distinct(others)
      && NoneOfOtherKind(rows, parent, images, Image)
      && (forall i, j :: 0 <= i < |images| && 0 <= j < |others| ==> images[i] != others[j])
  {
    SyncIff(rows, nextId, files, parent, images, Image);
    var p := Sync(rows, nextId, files, parent, images, Image);
    if p.error.None? {
      SyncIff(p.rows, p.nextId, files, parent, others, OtherFile);
      ImagesAfterSync(rows, nextId, parent, images, others);
    }
  }

  /**
   Images are replaced first, so a former file is refused as an image, even if the same
   update would take it from the files and whatever else it asks for.
   */
  lemma FormerFileIsRefusedAsImage(rows: seq<AssetRow>, nextId: int, files: Files, parent: int,
                                   images: seq<int>, others: Option<seq<int>>, i: nat)
    requires i < |rows| && rows[i].parentId == parent && rows[i].kind == OtherFile && rows[i].fileId in images
    ensures Replace(rows, nextId, files, parent, Some(images), others).error.Some?
  {
    SyncIff(rows, nextId, files, parent, images, Image);
  }

  /**
   A former image is welcome among the files: of an update whose lists are in order by
   themselves, the only thing that is refused is a former file listed as an image.
   */
  lemma ChangingSidesIff(rows: seq<AssetRow>, nextId: int, files: Files, parent: int, images: seq<int>, others: seq<int>)
    requires Exist(files, images + others) && Distinct(images + others)
    ensures Replace(rows, nextId, files, parent, Some(images), Some(others)).error.None? <==>
      NoneOfOtherKind(rows, parent, images, Image)
  {
    var both := images + others;
    assert forall i :: 0 <= i < |images| ==> both[i] == images[i];
    assert forall j :: 0 <= j < |others| ==> both[|images| + j] == others[j];
    ReplaceBothIff(rows, nextId, files, parent, images, others);
  }

  // A product with image 10 and file 11.
  function TwoAssets(): seq<AssetRow> {
    [AssetRow(1, 5, 10, Image, 0), AssetRow(2, 5, 11, OtherFile, 0)]
  }

  /** A swap is refused, although its outcome would be a legal table. */
  lemma SwapIsRefused(files: Files)
    ensures ValidRows(TwoAssets(), 3) && ValidRows([AssetRow(3, 5, 11, Image, 0), AssetRow(4, 5, 10, OtherFile, 0)], 5)
    ensures Replace(TwoAssets(), 3, files, 5, Some([11]), Some([10])).error.Some?
  {
    FormerFileIsRefusedAsImage(TwoAssets(), 3, files, 5, [11], Some([10]), 1);
  }

  /** Moving an image to the files goes through. */
  lemma MoveToFilesGoesThrough(files: Files)
    requires 10 in files
    ensures Replace(TwoAssets(), 3, files, 5, Some([]), Some([10])).error.None?
  {
    assert [] + [10] == [10];
    ChangingSidesIff(TwoAssets(), 3, files, 5, [], [10]);
  }

  // ---------- Images of a fault ----------

  predicate StartsWith(s: string, prefix: string) {
    prefix <= s
  }

  function FileProblem(files: Files, id: int): Option<Error> {
    if id !in files then Some(FileNotFound(id))
    else if files[id].status != "uploaded" then Some(NotUploaded(id))
    else if files[id].purpose != "product_image" then Some(WrongPurpose(id))
    else if files[id].mimeType.None? || !StartsWith(files[id].mimeType.value, "image/") then Some(NotAnImage(id))
    else None
  }

  function FirstProblem(files: Files, ids: seq<int>): Option<Error> {
    if ids == [] then None
    else
      var n := |ids| - 1;
      var e := FirstProblem(files, ids[..n]);
      if e.Some? then e else FileProblem(files, ids[n])
  }

  function SyncFault(rows: seq<AssetRow>, nextId: int, files: Files, fault: int, ids: seq<int>): Progress {
    var e := FirstProblem(files, ids);
    if e.Some? then Progress(rows, nextId, e) else Sync(rows, nextId, files, fault, ids, Image)
  }

  // A file that a fault may show: there, uploaded, as a product image, and of an image type.
  predicate UploadedImage(files: Files, id: int) {
    && id in files && files[id].status == "uploaded" && files[id].purpose == "product_image"
    && match files[id].mimeType
       case None => false
       case Some(mime) => |mime| >= 6 && mime[..6] == "image/"
  }

  /** What is wrong with a file, in this order: it is missing, not uploaded, for another purpose, no image. */
  lemma FileProblemIs(files: Files, id: int)
    ensures FileProblem(files, id) == None <==> UploadedImage(files, id)
    ensures id !in files ==> FileProblem(files, id) == Some(FileNotFound(id))
    ensures id in files && files[id].status != "uploaded" ==> FileProblem(files, id) == Some(NotUploaded(id))
    ensures id in files && files[id].status == "uploaded" && files[id].purpose != "product_image" ==>
      FileProblem(files, id) == Some(WrongPurpose(id))
    ensures id in files && files[id].status == "uploaded" && files[id].purpose == "product_image" && !UploadedImage(files, id) ==>
      FileProblem(files, id) == Some(NotAnImage(id))
  {
    if id in files && files[id].mimeType.Some? && |files[id].mimeType.value| >= 6 {
      assert "image/" <= files[id].mimeType.value <==> files[id].mimeType.value[..6] == "image/";
    }
  }

  /** The problem that is told is that of the first bad file on the list. */
  lemma {:induction false} FirstProblemIs(files: Files, ids: seq<int>)
    ensures match FirstProblem(files, ids)
            case None => forall i :: 0 <= i < |ids| ==> UploadedImage(files, ids[i])
            case Some(e) =>
              exists i :: 0 <= i < |ids| && (forall j :: 0 <= j < i ==> UploadedImage(files, ids[j]))
                          && !UploadedImage(files, ids[i]) && FileProblem(files, ids[i]) == Some(e)
  {
    if ids != [] {
      var n := |ids| - 1;
      FirstProblemIs(files, ids[..n]);
      FileProblemIs(files, ids[n]);
      if FirstProblem(files, ids[..n]).Some? {
        var i :| 0 <= i < n && (forall j :: 0 <= j < i ==> UploadedImage(files, ids[..n][j]))
                 && !UploadedImage(files, ids[..n][i]) && FileProblem(files, ids[..n][i]) == FirstProblem(files, ids[..n]);
        assert !UploadedImage(files, ids[i]) && FileProblem(files, ids[i]) == FirstProblem(files, ids);
        assert forall j :: 0 <= j < i ==> ids[j] == ids[..n][j];
      } else {
        assert forall j :: 0 <= j < n ==> ids[j] == ids[..n][j];
      }
    }
  }

  /** The files are validated once each, but a file listed twice passes that and is refused by the unique key. */
  lemma SyncFaultIff(rows: seq<AssetRow>, nextId: int, files: Files, fault: int, ids: seq<int>)
    requires forall i :: 0 <= i < |rows| ==> rows[i].kind == Image
    ensures SyncFault(rows, nextId, files, fault, ids).error.None? <==>
      (forall i :: 0 <= i < |ids| ==> UploadedImage(files, ids[i])) && Distinct(ids)
  {
    FirstProblemIs(files, ids);
    SyncIff(rows, nextId, files, fault, ids, Image);
  }

  lemma {:induction false} ErrorOfPrefix(start: Progress, files: Files, parent: int, ids: seq<int>, kind: Kind, k: nat)
    requires k <= |ids| && InsertAll(start, files, parent, ids[..k], kind).error.Some?
    ensures InsertAll(start, files, parent, ids, kind) == InsertAll(start, files, parent, ids[..k], kind)
  {
    if k < |ids| {
      assert ids[..|ids| - 1][..k] == ids[..k];
      ErrorOfPrefix(start, files, parent, ids[..|ids| - 1], kind, k);
    } else {
      assert ids[..k] == ids;
    }
  }

  lemma {:induction false} ProblemOfPrefix(files: Files, ids: seq<int>, k: nat)
    requires k <= |ids| && FirstProblem(files, ids[..k]).Some?
    ensures FirstProblem(files, ids) == FirstProblem(files, ids[..k])
  {
    if k < |ids| {
      assert ids[..|ids| - 1][..k] == ids[..k];
      ProblemOfPrefix(files, ids[..|ids| - 1], k);
    } else {
      assert ids[..k] == ids;
    }
  }

  lemma OneMoreInsert(start: Progress, files: Files, parent: int, ids: seq<int>, kind: Kind, i: nat)
    requires i < |ids| && InsertAll(start, files, parent, ids[..i], kind).error.None?
    ensures var p := Insert(InsertAll(start, files, parent, ids[..i], kind), files, parent, ids[i], kind, i);
      && InsertAll(start, files, parent, ids[..i + 1], kind) == p
      && (p.error.Some? ==> InsertAll(start, files, parent, ids, kind) == p)
  {
    assert ids[..i + 1][..i] == ids[..i];
    if InsertAll(start, files, parent, ids[..i + 1], kind).error.Some? {
      ErrorOfPrefix(start, files, parent, ids, kind, i + 1);
    }
  }

  // What keeps a file from being inserted behind those before it on the list.
  predicate InsertRefused(rows: seq<AssetRow>, files: Files, parent: int, ids: seq<int>, i: nat, e: Error)
    requires i < |ids|
  {
    && CanInsert(rows, files, parent, ids[..i])
    && if Has(rows, parent, ids[i]) || ids[i] in ids[..i] then e == DuplicateAsset
       else ids[i] !in files && e == MissingFile
  }

  /**
   The inserts stop at the first file that the parent has already, or that is listed a
   second time, or that does not exist; each of them has drawn an identity value, the
   refused one included.
   */
  lemma {:induction false} InsertAllRefuses(start: Progress, files: Files, parent: int, ids: seq<int>, kind: Kind) returns (i: nat)
    requires start.error.None? && InsertAll(start, files, parent, ids, kind).error.Some?
    ensures i < |ids| && InsertRefused(start.rows, files, parent, ids, i, InsertAll(start, files, parent, ids, kind).error.value)
    ensures InsertAll(start, files, parent, ids, kind).nextId == start.nextId + i + 1
  {
    var n := |ids| - 1;
    if InsertAll(start, files, parent, ids[..n], kind).error.Some? {
      i := InsertAllRefuses(start, files, parent, ids[..n], kind);
      assert ids[..n][..i] == ids[..i];
    } else {
      i := n;
      InsertAllIff(start, files, parent, ids[..n], kind);
      HasAppended(start.rows, NewRows(parent, ids[..n], kind, start.nextId), parent, ids[n]);
      HasNew(parent, ids[..n], kind, start.nextId, ids[n]);
    }
  }

  // ---------- The service ----------

  class AssetTable {
    var rows: seq<AssetRow>
    var nextId: int
    var files: Files

    constructor (files: Files)
      ensures rows == [] && nextId == 1 && this.files == files
    {
      rows, nextId := [], 1;
      this.files := files;
    }

    // Runs inside the caller's transaction: a refused insert leaves the earlier ones written.
    method SyncAssets(parent: int, ids: seq<int>, kind: Kind) returns (error: Option<Error>)
      modifies `rows, `nextId
      ensures Progress(rows, nextId, error) == Sync(old(rows), old(nextId), files, parent, ids, kind)
    {
      ghost var start := Progress(Filter(OutsideSlot(parent, kind), rows), nextId, None);
      rows := Filter(OutsideSlot(parent, kind), rows);
      for i := 0 to |ids|
        invariant Progress(rows, nextId, None) == InsertAll(start, files, parent, ids[..i], kind)
      {
        OneMoreInsert(start, files, parent, ids, kind, i);
        var id := nextId;
        nextId := nextId + 1;
        if exists k :: 0 <= k < |rows| && rows[k].parentId == parent && rows[k].fileId == ids[i] {
          return Some(DuplicateAsset);
        }
        if ids[i] !in files {
          return Some(MissingFile);
        }
        rows := rows + [AssetRow(id, parent, ids[i], kind, i)];
      }
      assert ids[..|ids|] == ids;
      error := None;
    }

    // The transaction of a product update.
    method ReplaceProductAssets(parent: int, images: Option<seq<int>>, others: Option<seq<int>>) returns (error: Option<Error>)
      modifies `rows, `nextId
      ensures var p := Replace(old(rows), old(nextId), files, parent, images, others);
        error == p.error && nextId == p.nextId && rows == if p.error.None? then p.rows else old(rows)
    {
      var snapshot := rows;
      error := None;
      if images.Some? {
        error := SyncAssets(parent, images.value, Image);
      }
      if error.None? && others.Some? {
        error := SyncAssets(parent, others.value, OtherFile);
      }
      if error.Some? {
        rows := snapshot;
      }
    }

    method AssertValidFaultImageFiles(ids: seq<int>) returns (error: Option<Error>)
      ensures error == FirstProblem(files, ids)
    {
      var uniqueIds: seq<int> := [];
      for i := 0 to |ids|
        invariant FirstProblem(files, uniqueIds) == FirstProblem(files, ids[..i])
        invariant forall k :: 0 <= k < i ==> ids[k] in uniqueIds
      {
        assert ids[..i + 1][..i] == ids[..i];
        if ids[i] !in uniqueIds {
          assert (uniqueIds + [ids[i]])[..|uniqueIds|] == uniqueIds;
          uniqueIds := uniqueIds + [ids[i]];
        } else {
          FirstProblemIs(files, uniqueIds);
          var k :| 0 <= k < |uniqueIds| && uniqueIds[k] == ids[i];
        }
      }
      assert ids[..|ids|] == ids;
      for i := 0 to |uniqueIds|
        invariant FirstProblem(files, uniqueIds[..i]) == None
      {
        assert uniqueIds[..i + 1][..i] == uniqueIds[..i];
        var id := uniqueIds[i];
        error := None;
        if id !in files {
          error := Some(FileNotFound(id));
        } else if files[id].status != "uploaded" {
          error := Some(NotUploaded(id));
        } else if files[id].purpose != "product_image" {
          error := Some(WrongPurpose(id));
        } else if files[id].mimeType.None? || !StartsWith(files[id].mimeType.value, "image/") {
          error := Some(NotAnImage(id));
        }
        if error.Some? {
          ProblemOfPrefix(files, uniqueIds, i + 1);
          return;
        }
      }
      assert uniqueIds[..|uniqueIds|] == uniqueIds;
      error := None;
    }

    method SyncFaultAssets(fault: int, ids: seq<int>) returns (error: Option<Error>)
      modifies `rows, `nextId
      ensures Progress(rows, nextId, error) == SyncFault(old(rows), old(nextId), files, fault, ids)
    {
      error := AssertValidFaultImageFiles(ids);
      if error.None? {
        error := SyncAssets(fault, ids, Image);
      }
    }
  }

  // ---------- Attaching ----------

  datatype Attached = Attached(parentId: int, images: seq<AssetRow>, files: seq<AssetRow>)

  function SlotPair(parent: int, rows: seq<AssetRow>): Attached {
    Attached(parent, Filter(Slot(parent, Image), rows), Filter(Slot(parent, OtherFile), rows))
  }

  lemma OneMoreAsset(answer: seq<AssetRow>, i: nat, parent: int)
    requires i < |answer|
    ensures SlotPair(parent, answer[..i + 1]) ==
      var b := SlotPair(parent, answer[..i]);
      if answer[i].parentId != parent then b
      else if answer[i].kind == Image then b.(images := b.images + [answer[i]])
      else b.(files := b.files + [answer[i]])
  {
    OneMoreRow(Slot(parent, Image), answer, i);
    OneMoreRow(Slot(parent, OtherFile), answer, i);
  }

  /** One pass over the answer of one query gives every product exactly its own images and files, in the answer's order. */
  method AttachProductAssets(products: seq<int>, answer: seq<AssetRow>) returns (r: seq<Attached>)
    ensures |r| == |products|
    ensures forall i :: 0 <= i < |products| ==> r[i] == SlotPair(products[i], answer)
  {
    var byProductId: map<int, Attached> := map[];
    for i := 0 to |answer|
      invariant forall p :: p in byProductId ==> byProductId[p] == SlotPair(p, answer[..i])
      invariant forall p :: p !in byProductId ==> SlotPair(p, answer[..i]) == Attached(p, [], [])
    {
      var productId := answer[i].parentId;
      var bucket := if productId in byProductId then byProductId[productId] else Attached(productId, [], []);
      if answer[i].kind == Image {
        bucket := bucket.(images := bucket.images + [answer[i]]);
      } else {
        bucket := bucket.(files := bucket.files + [answer[i]]);
      }
      forall p ensures SlotPair(p, answer[..i + 1]) == if p == productId then bucket else SlotPair(p, answer[..i]) {
        OneMoreAsset(answer, i, p);
      }
      byProductId := byProductId[productId := bucket];
    }
    assert answer[..|answer|] == answer;
    r := seq(|products|, i requires 0 <= i < |products| =>
      if products[i] in byProductId then byProductId[products[i]] else Attached(products[i], [], []));
  }

  function OfParents(parents: seq<int>): AssetRow -> bool {
    (r: AssetRow) => r.parentId in parents
  }

  /** What is attached is what a query of its own for that parent and slot would return. */
  lemma AttachedIsNested(rows: seq<AssetRow>, nextId: int, parents: seq<int>, parent: int, kind: Kind,
                         answer: seq<AssetRow>, nested: seq<AssetRow>)
    requires ValidRows(rows, nextId) && parent in parents
    requires multiset(answer) == multiset(Filter(OfParents(parents), rows)) && Arranged(AssetOrder(), answer)
    requires multiset(nested) == multiset(Filter(Slot(parent, kind), rows)) && Arranged(AssetOrder(), nested)
    ensures Filter(Slot(parent, kind), answer) == nested
  {
    RowsAreDecided(rows, nextId);
    BucketIsNestedAnswer(AssetOrder(), rows, OfParents(parents), Slot(parent, kind), answer, nested);
  }

  // The attached slot has the table's rows of that slot, in the query's order.
  lemma AttachedSlot(rows: seq<AssetRow>, parents: seq<int>, parent: int, kind: Kind, answer: seq<AssetRow>)
    requires parent in parents
    requires multiset(answer) == multiset(Filter(OfParents(parents), rows)) && Arranged(AssetOrder(), answer)
    ensures multiset(Filter(Slot(parent, kind), answer)) == multiset(Filter(Slot(parent, kind), rows))
    ensures Arranged(AssetOrder(), Filter(Slot(parent, kind), answer))
  {
    SameRows(rows, OfParents(parents), Slot(parent, kind), answer, Filter(Slot(parent, kind), rows));
    FilterArranged(AssetOrder(), Slot(parent, kind), answer);
  }

  // The files of a slot, in the listed order with sort orders 0, 1, 2, …
  predicate Lists(slot: seq<AssetRow>, ids: seq<int>) {
    FileIds(slot) == ids && forall i :: 0 <= i < |slot| ==> slot[i].sortOrder == i
  }

  /**
   Round trip: after an update of both lists, the one query for all products on the page
   attaches to this product the listed images and the listed files, each in the listed
   order.
   */
  lemma ReplaceThenAttach(rows: seq<AssetRow>, nextId: int, files: Files, parent: int, images: seq<int>, others: seq<int>,
                          parents: seq<int>, answer: seq<AssetRow>)
    requires parent in parents
    requires var p := Replace(rows, nextId, files, parent, Some(images), Some(others));
      && p.error.None?
      && multiset(answer) == multiset(Filter(OfParents(parents), p.rows)) && Arranged(AssetOrder(), answer)
    ensures var shown := SlotPair(parent, answer); Lists(shown.images, images) && Lists(shown.files, others)
  {
    var first := Sync(rows, nextId, files, parent, images, Image);
    var second := Sync(first.rows, first.nextId, files, parent, others, OtherFile);
    AttachedSlot(second.rows, parents, parent, Image, answer);
    AttachedSlot(second.rows, parents, parent, OtherFile, answer);
    SyncKeepsOthers(first.rows, first.nextId, files, parent, others, OtherFile, parent, Image);
    SyncThenRead(rows, nextId, files, parent, images, Image, Filter(Slot(parent, Image), answer));
    SyncThenRead(first.rows, first.nextId, files, parent, others, OtherFile, Filter(Slot(parent, OtherFile), answer));
  }

  /** The same for one list alone, with everything else on the page as before. */
  lemma SyncThenAttach(rows: seq<AssetRow>, nextId: int, files: Files, parent: int, ids: seq<int>, kind: Kind,
                       parents: seq<int>, before: seq<AssetRow>, after: seq<AssetRow>, p: int, k: Kind)
    requires ValidRows(rows, nextId) && parent in parents && p in parents
    requires multiset(before) == multiset(Filter(OfParents(parents), rows)) && Arranged(AssetOrder(), before)
    requires var done := Sync(rows, nextId, files, parent, ids, kind);
      && done.error.None?
      && multiset(after) == multiset(Filter(OfParents(parents), done.rows)) && Arranged(AssetOrder(), after)
    ensures if p == parent && k == kind then Lists(Filter(Slot(p, k), after), ids)
            else Filter(Slot(p, k), after) == Filter(Slot(p, k), before)
  {
    var done := Sync(rows, nextId, files, parent, ids, kind);
    AttachedSlot(done.rows, parents, p, k, after);
    if p == parent && k == kind {
      SyncThenRead(rows, nextId, files, parent, ids, kind, Filter(Slot(p, k), after));
    } else {
      SyncKeepsOthers(rows, nextId, files, parent, ids, kind, p, k);
      AttachedIsNested(rows, nextId, parents, p, k, before, Filter(Slot(p, k), after));
    }
  }

  function ParentOf(): AssetRow -> int {
    (r: AssetRow) => r.parentId
  }

  /** Images and files of a parent together are its rows, none lost and none in both. */
  lemma SlotsPartition(parent: int, rows: seq<AssetRow>)
    ensures multiset(Filter(Slot(parent, Image), rows)) + multiset(Filter(Slot(parent, OtherFile), rows))
         == multiset(Filter(HasKey(ParentOf(), parent), rows))
  {
    var images, others := Filter(Slot(parent, Image), rows), Filter(Slot(parent, OtherFile), rows);
    forall x ensures multiset(images + others)[x] == multiset(Filter(HasKey(ParentOf(), parent), rows))[x] {
      FilterCount(Slot(parent, Image), rows, x);
      FilterCount(Slot(parent, OtherFile), rows, x);
      FilterCount(HasKey(ParentOf(), parent), rows, x);
      ConcatCount(images, others, x);
    }
    SameCounts(images + others, Filter(HasKey(ParentOf(), parent), rows));
  }
}
