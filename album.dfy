// The album repository: photos read from the media store (one row per
// image, newest first), grouped into one folder per bucket and ordered by
// folder name ignoring case, and the photos of one bucket.

module Album {
  import opened Geometry

  /** Name given to a photo whose display name is missing (Chinese for "picture"). */
  const DefaultDisplayName := "图片"
  /** Name given to a bucket whose display name is missing (Chinese for "uncategorised"). */
  const DefaultBucketName := "未分类"

  /** One row of the media-store query; the two names may be missing. */
  datatype Row = Row(id: int, displayName: Option<string>, dateAdded: int,
                     bucketId: int, bucketName: Option<string>)

  /** A photo. Its content URI is the image collection's URI with `id` appended. */
  datatype Photo = Photo(id: int, displayName: string, dateAdded: int,
                         bucketId: int, bucketName: string)

  /** A folder; its cover is the photo whose id is `coverId`. */
  datatype Folder = Folder(bucketId: int, bucketName: string, coverId: int, photoCount: nat)

  /** The photo built from one query row: missing names take their defaults. */
  function PhotoOf(r: Row): (p: Photo)
    ensures p.id == r.id && p.dateAdded == r.dateAdded && p.bucketId == r.bucketId
    ensures r.displayName.None? ==> p.displayName == DefaultDisplayName
    ensures r.displayName.Some? ==> p.displayName == r.displayName.value
    ensures r.bucketName.None? ==> p.bucketName == DefaultBucketName
    ensures r.bucketName.Some? ==> p.bucketName == r.bucketName.value
  {
    Photo(r.id,
          if r.displayName.Some? then r.displayName.value else DefaultDisplayName,
          r.dateAdded, r.bucketId,
          if r.bucketName.Some? then r.bucketName.value else DefaultBucketName)
  }

  function PhotosOf(rows: seq<Row>): (ps: seq<Photo>)
    ensures |ps| == |rows| && forall i :: 0 <= i < |rows| ==> ps[i] == PhotoOf(rows[i])
  {
    seq(|rows|, i requires 0 <= i < |rows| => PhotoOf(rows[i]))
  }

  function Init<T>(s: seq<T>): seq<T>
    requires s != []
  {
    s[..|s| - 1]
  }

  function Last<T>(s: seq<T>): T
    requires s != []
  {
    s[|s| - 1]
  }

  // ---------------------------------------------------------------------
  // Grouping by bucket (Kotlin's groupBy: keys in order of first
  // appearance, each group in input order)
  // ---------------------------------------------------------------------

  /** The photos of bucket `b`, in input order. */
  function InBucket(ps: seq<Photo>, b: int): seq<Photo>
  {
    if ps == [] then []
    else InBucket(Init(ps), b) + (if Last(ps).bucketId == b then [Last(ps)] else [])
  }

  /** The distinct bucket ids of `ps`, in order of first appearance. */
  function Keys(ps: seq<Photo>): (ks: seq<int>)
    ensures forall i, j :: 0 <= i < j < |ks| ==> ks[i] != ks[j]
    ensures forall i :: 0 <= i < |ks| ==> InBucket(ps, ks[i]) != []
  {
    if ps == [] then []
    else
      var ks := Keys(Init(ps));
      if Last(ps).bucketId in ks then ks else ks + [Last(ps).bucketId]
  }

  /** The result of `groupBy { it.bucketId }`, as a list of entries. */
  function GroupBy(ps: seq<Photo>): (g: seq<(int, seq<Photo>)>)
    ensures |g| == |Keys(ps)|
    ensures forall i :: 0 <= i < |g| ==> g[i] == (Keys(ps)[i], InBucket(ps, Keys(ps)[i]))
  {
    var ks := Keys(ps);
    seq(|ks|, i requires 0 <= i < |ks| => (ks[i], InBucket(ps, ks[i])))
  }

  /** The folder of bucket `b`: name and cover from its first photo, and its size. */
  function FolderOf(ps: seq<Photo>, b: int): Folder
    requires InBucket(ps, b) != []
  {
    var group := InBucket(ps, b);
    Folder(b, group[0].bucketName, group[0].id, |group|)
  }

  /** The folders in grouping order, before sorting. */
  function GroupFolders(ps: seq<Photo>): (fs: seq<Folder>)
    ensures |fs| == |Keys(ps)|
    ensures forall i :: 0 <= i < |fs| ==> fs[i] == FolderOf(ps, Keys(ps)[i])
  {
    var ks := Keys(ps);
    seq(|ks|, i requires 0 <= i < |ks| => FolderOf(ps, ks[i]))
  }

  lemma {:induction false} InBucketMembers(ps: seq<Photo>, b: int)
    ensures forall p :: p in InBucket(ps, b) <==> p in ps && p.bucketId == b
  {
    if ps != [] {
      InBucketMembers(Init(ps), b);
      assert ps == Init(ps) + [Last(ps)];
    }
  }

  /** Filtering distributes over concatenation, so it keeps input order. */
  lemma {:induction false} InBucketAppend(ps: seq<Photo>, qs: seq<Photo>, b: int)
    ensures InBucket(ps + qs, b) == InBucket(ps, b) + InBucket(qs, b)
    decreases |qs|
  {
    if qs == [] {
      assert ps + qs == ps;
    } else {
      assert Init(ps + qs) == ps + Init(qs);
      assert Last(ps + qs) == Last(qs);
      InBucketAppend(ps, Init(qs), b);
    }
  }

  lemma {:induction false} InBucketNone(ps: seq<Photo>, b: int)
    requires forall i :: 0 <= i < |ps| ==> ps[i].bucketId != b
    ensures InBucket(ps, b) == []
  {
    if ps != [] {
      var pre := Init(ps);
      assert forall i :: 0 <= i < |pre| ==> pre[i] == ps[i];
      InBucketNone(pre, b);
    }
  }

  /** Every bucket id of the input is a key. */
  lemma {:induction false} KeysComplete(ps: seq<Photo>, i: int)
    requires 0 <= i < |ps|
    ensures ps[i].bucketId in Keys(ps)
    decreases |ps|
  {
    if i < |ps| - 1 {
      KeysComplete(Init(ps), i);
      assert Init(ps)[i] == ps[i];
    }
  }

  /** The keys come in order of first appearance: a bucket listed before
      another has a photo before every photo of the other one. */
  lemma {:induction false} KeysInFirstAppearanceOrder(ps: seq<Photo>, i: int, j: int, k: int)
    requires 0 <= i < j < |Keys(ps)| && 0 <= k < |ps| && ps[k].bucketId == Keys(ps)[j]
    ensures InBucket(ps[..k], Keys(ps)[i]) != []
    decreases |ps|
  {
    var pre := Init(ps);
    var ks := Keys(pre);
    assert Keys(ps)[i] == ks[i];
    if k < |ps| - 1 {
      assert pre[k] == ps[k] && pre[..k] == ps[..k];
      KeysComplete(pre, k);
      assert j < |ks|;
      KeysInFirstAppearanceOrder(pre, i, j, k);
    } else {
      assert ps[..k] == pre;
    }
  }

  /** A bucket's folder takes its name and cover from that bucket's first photo. */
  lemma FolderOfFirstPhoto(ps: seq<Photo>, b: int, i: int)
    requires 0 <= i < |ps| && ps[i].bucketId == b
    requires forall j :: 0 <= j < i ==> ps[j].bucketId != b
    ensures InBucket(ps, b) != []
    ensures FolderOf(ps, b).bucketName == ps[i].bucketName
    ensures FolderOf(ps, b).coverId == ps[i].id
  {
    assert ps == ps[..i] + ([ps[i]] + ps[i + 1..]);
    InBucketAppend(ps[..i], [ps[i]] + ps[i + 1..], b);
    InBucketAppend([ps[i]], ps[i + 1..], b);
    InBucketNone(ps[..i], b);
    assert InBucket([ps[i]], b) == [ps[i]] by {
      assert Init([ps[i]]) == [];
    }
  }

  /** A bucket whose first row had no name is shown as the default bucket name. */
  lemma UnnamedBucketFolder(rows: seq<Row>, b: int, i: int)
    requires 0 <= i < |rows| && rows[i].bucketId == b && rows[i].bucketName.None?
    requires forall j :: 0 <= j < i ==> rows[j].bucketId != b
    ensures InBucket(PhotosOf(rows), b) != []
    ensures FolderOf(PhotosOf(rows), b).bucketName == DefaultBucketName
  {
    FolderOfFirstPhoto(PhotosOf(rows), b, i);
  }

  // ---------------------------------------------------------------------
  // Photo counts
  // ---------------------------------------------------------------------

  function TotalCount(fs: seq<Folder>): nat
  {
    if fs == [] then 0 else fs[0].photoCount + TotalCount(fs[1..])
  }

  /** The number of photos in the buckets `ks`. */
  function CountOver(ks: seq<int>, ps: seq<Photo>): nat
  {
    if ks == [] then 0 else |InBucket(ps, ks[0])| + CountOver(ks[1..], ps)
  }

  /** How often `b` occurs in `ks`. */
  function Occurrences(ks: seq<int>, b: int): nat
  {
    if ks == [] then 0 else (if ks[0] == b then 1 else 0) + Occurrences(ks[1..], b)
  }

  lemma {:induction false} CountOverStep(ks: seq<int>, ps: seq<Photo>, p: Photo)
    ensures CountOver(ks, ps + [p]) == CountOver(ks, ps) + Occurrences(ks, p.bucketId)
  {
    if ks != [] {
      CountOverStep(ks[1..], ps, p);
      assert Init(ps + [p]) == ps;
    }
  }

  lemma {:induction false} CountOverAppend(ks: seq<int>, b: int, ps: seq<Photo>)
    ensures CountOver(ks + [b], ps) == CountOver(ks, ps) + |InBucket(ps, b)|
  {
    if ks == [] {
      assert ([] + [b])[1..] == [];
    } else {
      assert (ks + [b])[1..] == ks[1..] + [b];
      CountOverAppend(ks[1..], b, ps);
    }
  }

  lemma {:induction false} OccurrencesAbsent(ks: seq<int>, b: int)
    requires b !in ks
    ensures Occurrences(ks, b) == 0
  {
    if ks != [] {
      OccurrencesAbsent(ks[1..], b);
    }
  }

  lemma {:induction false} OccurrencesDistinct(ks: seq<int>, b: int)
    requires forall i, j :: 0 <= i < j < |ks| ==> ks[i] != ks[j]
    requires b in ks
    ensures Occurrences(ks, b) == 1
  {
    if ks[0] == b {
      OccurrencesAbsent(ks[1..], b);
    } else {
      OccurrencesDistinct(ks[1..], b);
    }
  }

  /** The bucket sizes add up to the number of photos. */
  lemma {:induction false} KeyCountsSum(ps: seq<Photo>)
    ensures CountOver(Keys(ps), ps) == |ps|
    decreases |ps|
  {
    if ps != [] {
      var pre, p := Init(ps), Last(ps);
      assert ps == pre + [p];
      KeyCountsSum(pre);
      var ks := Keys(pre);
      CountOverStep(ks, pre, p);
      if p.bucketId in ks {
        OccurrencesDistinct(ks, p.bucketId);
      } else {
        OccurrencesAbsent(ks, p.bucketId);
        CountOverAppend(ks, p.bucketId, ps);
        assert InBucket(pre, p.bucketId) == [] by {
          forall i | 0 <= i < |pre|
            ensures pre[i].bucketId != p.bucketId
          {
            KeysComplete(pre, i);
          }
          InBucketNone(pre, p.bucketId);
        }
        assert InBucket(ps, p.bucketId) == [p];
      }
    }
  }

  lemma {:induction false} TotalCountOfFolders(ps: seq<Photo>, ks: seq<int>)
    requires forall i :: 0 <= i < |ks| ==> InBucket(ps, ks[i]) != []
    ensures TotalCount(seq(|ks|, i requires 0 <= i < |ks| => FolderOf(ps, ks[i])))
            == CountOver(ks, ps)
  {
    if ks != [] {
      var fs := seq(|ks|, i requires 0 <= i < |ks| => FolderOf(ps, ks[i]));
      var rest := ks[1..];
      TotalCountOfFolders(ps, rest);
      assert fs[1..] == seq(|rest|, i requires 0 <= i < |rest| => FolderOf(ps, rest[i]));
    }
  }

  /** Grouping loses no photo: the folder sizes add up to the input length. */
  lemma GroupCountsSum(ps: seq<Photo>)
    ensures TotalCount(GroupFolders(ps)) == |ps|
  {
    var ks := Keys(ps);
    TotalCountOfFolders(ps, ks);
    assert GroupFolders(ps) == seq(|ks|, i requires 0 <= i < |ks| => FolderOf(ps, ks[i]));
    KeyCountsSum(ps);
  }

  // ---------------------------------------------------------------------
  // Folder facts before sorting
  // ---------------------------------------------------------------------

  function IdsOf(fs: seq<Folder>): (ids: seq<int>)
    ensures |ids| == |fs| && forall i :: 0 <= i < |fs| ==> ids[i] == fs[i].bucketId
  {
    seq(|fs|, i requires 0 <= i < |fs| => fs[i].bucketId)
  }

  predicate DistinctIds(fs: seq<Folder>)
  {
    forall i, j :: 0 <= i < j < |fs| ==> fs[i].bucketId != fs[j].bucketId
  }

  /** Each folder is its own bucket's folder. */
  predicate FoldersOfBuckets(ps: seq<Photo>, fs: seq<Folder>)
  {
    forall f :: f in fs ==> InBucket(ps, f.bucketId) != [] && f == FolderOf(ps, f.bucketId)
  }

  /** One folder per distinct bucket, each its bucket's folder. */
  lemma GroupFoldersSpec(ps: seq<Photo>)
    ensures DistinctIds(GroupFolders(ps))
    ensures FoldersOfBuckets(ps, GroupFolders(ps))
    ensures forall i :: 0 <= i < |ps| ==> ps[i].bucketId in IdsOf(GroupFolders(ps))
  {
    var fs, ks := GroupFolders(ps), Keys(ps);
    assert IdsOf(fs) == ks;
    forall i | 0 <= i < |ps|
      ensures ps[i].bucketId in IdsOf(fs)
    {
      KeysComplete(ps, i);
    }
  }

  // ---------------------------------------------------------------------
  // Sorting by lower-cased name (Kotlin's stable sortedBy)
  // ---------------------------------------------------------------------

  function LowerChar(c: char): (d: char)
    ensures !('A' <= d <= 'Z')
    ensures 'A' <= c <= 'Z' ==> d as int == c as int + 32
    ensures !('A' <= c <= 'Z') ==> d == c
  {
    if 'A' <= c <= 'Z' then (c as int + 32) as char else c
  }

  function Lower(s: string): (r: string)
    ensures |r| == |s| && forall i :: 0 <= i < |s| ==> r[i] == LowerChar(s[i])
  {
    seq(|s|, i requires 0 <= i < |s| => LowerChar(s[i]))
  }

  /** String comparison, char by char, a proper prefix first. */
  predicate LexLeq(a: string, b: string)
    decreases |a|
  {
    |a| == 0 || (|b| > 0 && (a[0] < b[0] || (a[0] == b[0] && LexLeq(a[1..], b[1..]))))
  }

  lemma {:induction false} LexTotal(a: string, b: string)
    ensures LexLeq(a, b) || LexLeq(b, a)
    decreases |a|
  {
    if |a| > 0 && |b| > 0 && a[0] == b[0] {
      LexTotal(a[1..], b[1..]);
    }
  }

  lemma {:induction false} LexTrans(a: string, b: string, c: string)
    requires LexLeq(a, b) && LexLeq(b, c)
    ensures LexLeq(a, c)
    decreases |a|
  {
    if |a| > 0 && a[0] == b[0] && b[0] == c[0] {
      LexTrans(a[1..], b[1..], c[1..]);
    }
  }

  /** The sort key of `sortedBy { it.bucketName.lowercase() }`. */
  predicate NameLeq(f: Folder, g: Folder)
  {
    LexLeq(Lower(f.bucketName), Lower(g.bucketName))
  }

  predicate Sorted(fs: seq<Folder>)
  {
    forall i, j :: 0 <= i < j < |fs| ==> NameLeq(fs[i], fs[j])
  }

  predicate AdjacentSorted(fs: seq<Folder>)
  {
    forall i :: 0 <= i < |fs| - 1 ==> NameLeq(fs[i], fs[i + 1])
  }

  /** Puts `x` before the first folder whose name is not below its own. */
  function Insert(x: Folder, s: seq<Folder>): seq<Folder>
  {
    if s == [] then [x]
    else if NameLeq(x, s[0]) then [x] + s
    else [s[0]] + Insert(x, s[1..])
  }

  function SortByName(fs: seq<Folder>): seq<Folder>
  {
    if fs == [] then [] else Insert(fs[0], SortByName(fs[1..]))
  }

  lemma {:induction false} InsertPermutes(x: Folder, s: seq<Folder>)
    ensures multiset(Insert(x, s)) == multiset(s) + multiset{x}
  {
    if s != [] && !NameLeq(x, s[0]) {
      InsertPermutes(x, s[1..]);
      assert s == [s[0]] + s[1..];
    }
  }

  lemma {:induction false} InsertTotal(x: Folder, s: seq<Folder>)
    ensures TotalCount(Insert(x, s)) == x.photoCount + TotalCount(s)
  {
    if s != [] && !NameLeq(x, s[0]) {
      var r := Insert(x, s[1..]);
      InsertTotal(x, s[1..]);
      assert ([s[0]] + r)[1..] == r;
    } else if s != [] {
      assert ([x] + s)[1..] == s;
    }
  }

  lemma {:induction false} InsertSorted(x: Folder, s: seq<Folder>)
    requires AdjacentSorted(s)
    ensures Insert(x, s)[0] == x || (s != [] && Insert(x, s)[0] == s[0])
    ensures AdjacentSorted(Insert(x, s))
  {
    if s != [] && !NameLeq(x, s[0]) {
      var t := s[1..];
      InsertSorted(x, t);
      LexTotal(Lower(x.bucketName), Lower(s[0].bucketName));
    }
  }

  lemma {:induction false} AdjacentToSorted(fs: seq<Folder>)
    requires AdjacentSorted(fs)
    ensures Sorted(fs)
  {
    if fs != [] {
      var t := fs[1..];
      assert AdjacentSorted(t);
      AdjacentToSorted(t);
      forall j | 1 <= j < |fs|
        ensures NameLeq(fs[0], fs[j])
      {
        if j > 1 {
          assert t[0] == fs[1] && t[j - 1] == fs[j];
          LexTrans(Lower(fs[0].bucketName), Lower(fs[1].bucketName), Lower(fs[j].bucketName));
        }
      }
    }
  }

  lemma {:induction false} InsertMembers(x: Folder, s: seq<Folder>)
    ensures forall f :: f in Insert(x, s) <==> f == x || f in s
  {
    if s != [] && !NameLeq(x, s[0]) {
      InsertMembers(x, s[1..]);
      assert s == [s[0]] + s[1..];
    }
  }

  lemma {:induction false} InsertDistinct(x: Folder, s: seq<Folder>)
    requires DistinctIds(s)
    requires forall f :: f in s ==> f.bucketId != x.bucketId
    ensures DistinctIds(Insert(x, s))
  {
    if s != [] && !NameLeq(x, s[0]) {
      var t := s[1..];
      assert DistinctIds(t);
      InsertDistinct(x, t);
      InsertMembers(x, t);
      var r := Insert(x, t);
      forall j | 0 <= j < |r|
        ensures r[j].bucketId != s[0].bucketId
      {
        assert r[j] in r;
      }
      assert Insert(x, s) == [s[0]] + r;
    }
  }

  /** sortedBy returns a permutation and keeps the counts. */
  lemma {:induction false} SortByNameCounts(fs: seq<Folder>)
    ensures multiset(SortByName(fs)) == multiset(fs)
    ensures TotalCount(SortByName(fs)) == TotalCount(fs)
  {
    if fs != [] {
      var t := fs[1..];
      assert fs == [fs[0]] + t;
      SortByNameCounts(t);
      InsertPermutes(fs[0], SortByName(t));
      InsertTotal(fs[0], SortByName(t));
    }
  }

  lemma {:induction false} SortByNameAdjacent(fs: seq<Folder>)
    ensures AdjacentSorted(SortByName(fs))
  {
    if fs != [] {
      SortByNameAdjacent(fs[1..]);
      InsertSorted(fs[0], SortByName(fs[1..]));
    }
  }

  /** Sorting keeps the bucket ids distinct. */
  lemma {:induction false} SortByNameDistinct(fs: seq<Folder>)
    requires DistinctIds(fs)
    ensures DistinctIds(SortByName(fs))
  {
    if fs != [] {
      var t := fs[1..];
      assert DistinctIds(t);
      SortByNameDistinct(t);
      SortByNameCounts(t);
      forall f | f in SortByName(t)
        ensures f.bucketId != fs[0].bucketId
      {
        assert f in multiset(t);
      }
      InsertDistinct(fs[0], SortByName(t));
    }
  }

  /** The result of sortedBy is ordered by lower-cased name. */
  lemma SortByNameSorted(fs: seq<Folder>)
    ensures Sorted(SortByName(fs))
    ensures multiset(SortByName(fs)) == multiset(fs)
  {
    SortByNameCounts(fs);
    SortByNameAdjacent(fs);
    AdjacentToSorted(SortByName(fs));
  }

  /** The folders whose lower-cased name is `key`, in order. */
  function WithKey(fs: seq<Folder>, key: string): seq<Folder>
  {
    if fs == [] then []
    else (if Lower(fs[0].bucketName) == key then [fs[0]] else []) + WithKey(fs[1..], key)
  }

  lemma {:induction false} LexRefl(a: string)
    ensures LexLeq(a, a)
    decreases |a|
  {
    if |a| > 0 {
      LexRefl(a[1..]);
    }
  }

  /** Inserting `x` puts it before every folder of its own key and leaves
      the order within every other key alone. */
  lemma {:induction false} InsertWithKey(x: Folder, s: seq<Folder>, key: string)
    ensures WithKey(Insert(x, s), key)
            == (if Lower(x.bucketName) == key then [x] else []) + WithKey(s, key)
    decreases |s|
  {
    if s == [] {
      assert [x][1..] == [];
    } else if NameLeq(x, s[0]) {
      assert ([x] + s)[1..] == s;
    } else {
      assert ([s[0]] + Insert(x, s[1..]))[1..] == Insert(x, s[1..]);
      InsertWithKey(x, s[1..], key);
      if Lower(x.bucketName) == key {
        LexRefl(key);
        assert Lower(s[0].bucketName) != key;
      }
    }
  }

  /** sortedBy is stable: folders with the same lower-cased name keep the
      order they had before sorting. */
  lemma {:induction false} SortByNameStable(fs: seq<Folder>, key: string)
    ensures WithKey(SortByName(fs), key) == WithKey(fs, key)
    decreases |fs|
  {
    if fs != [] {
      InsertWithKey(fs[0], SortByName(fs[1..]), key);
      SortByNameStable(fs[1..], key);
    }
  }

  // ---------------------------------------------------------------------
  // Repository operations
  // ---------------------------------------------------------------------

  /** loadAllFolders over the photos the query returned, newest first. */
  method LoadAllFolders(allPhotos: seq<Photo>) returns (folders: seq<Folder>)
    ensures allPhotos == [] ==> folders == []
    ensures folders == SortByName(GroupFolders(allPhotos))
    ensures multiset(folders) == multiset(GroupFolders(allPhotos))
    ensures Sorted(folders)
    ensures DistinctIds(folders)
    ensures FoldersOfBuckets(allPhotos, folders)
    ensures forall i :: 0 <= i < |allPhotos| ==> allPhotos[i].bucketId in IdsOf(folders)
    ensures TotalCount(folders) == |allPhotos|
  {
    if allPhotos == [] {
      return [];
    }
    var grouped := GroupBy(allPhotos);
    var unsorted: seq<Folder> := [];
    var i := 0;
    while i < |grouped|
      invariant 0 <= i <= |grouped|
      invariant unsorted == GroupFolders(allPhotos)[..i]
    {
      var bucketId := grouped[i].0;
      var photosInBucket := grouped[i].1;
      var first := photosInBucket[0];
      unsorted := unsorted + [Folder(bucketId, first.bucketName, first.id, |photosInBucket|)];
      i := i + 1;
    }
    assert unsorted == GroupFolders(allPhotos);
    folders := SortByName(unsorted);
    GroupFoldersSpec(allPhotos);
    GroupCountsSum(allPhotos);
    SortByNameCounts(unsorted);
    SortByNameDistinct(unsorted);
    SortByNameSorted(unsorted);
    forall f | f in folders
      ensures InBucket(allPhotos, f.bucketId) != [] && f == FolderOf(allPhotos, f.bucketId)
    {
      assert f in multiset(unsorted);
    }
    forall i | 0 <= i < |allPhotos|
      ensures allPhotos[i].bucketId in IdsOf(folders)
    {
      var k :| 0 <= k < |unsorted| && unsorted[k].bucketId == allPhotos[i].bucketId;
      assert unsorted[k] in multiset(folders);
      var m :| 0 <= m < |folders| && folders[m] == unsorted[k];
      assert IdsOf(folders)[m] == allPhotos[i].bucketId;
    }
  }

  /** loadPhotosInBucket over the photos the query returned. */
  function LoadPhotosInBucket(all: seq<Photo>, bucketId: int): (r: seq<Photo>)
    ensures forall p :: p in r <==> p in all && p.bucketId == bucketId
  {
    InBucketMembers(all, bucketId);
    if all == [] then [] else InBucket(all, bucketId)
  }

  /** Filtering keeps input order: it distributes over concatenation. */
  lemma LoadPhotosInBucketKeepsOrder(ps: seq<Photo>, qs: seq<Photo>, bucketId: int)
    ensures LoadPhotosInBucket(ps + qs, bucketId)
            == LoadPhotosInBucket(ps, bucketId) + LoadPhotosInBucket(qs, bucketId)
  {
    InBucketAppend(ps, qs, bucketId);
  }

  /** The photos shown for a folder are as many as the folder's count says. */
  lemma FolderCountMatchesBucket(ps: seq<Photo>, f: Folder)
    requires f in SortByName(GroupFolders(ps))
    ensures |LoadPhotosInBucket(ps, f.bucketId)| == f.photoCount
    ensures f.photoCount > 0
  {
    SortByNameCounts(GroupFolders(ps));
    assert f in multiset(GroupFolders(ps));
    GroupFoldersSpec(ps);
  }
}
