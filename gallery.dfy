/** The Directory Index of server.js: the `/api/images` page listing
    (server.js:132-165) and the `/api/test/videos` listing (server.js:83-101).
    The directory is given as what fs.readdir and fs.statSync report. */
module Gallery {
  import opened Base
  import opened Text
  import opened Lists

  /** One file of the images directory: its name and its modification time
      in milliseconds (`statSync(..).mtime.getTime()`). */
  datatype Entry = Entry(name: string, mtime: int)

  /** What fs.readdir hands its callback: an error, or the directory's entries. */
  datatype Listing<T> = Unreadable | Listed(files: seq<T>)

  function MTime(e: Entry): int { e.mtime }

  function Name(e: Entry): string { e.name }

  function Names(dir: seq<Entry>): seq<string> { Map(dir, Name) }

  /** The extension test of server.js:142-145. */
  predicate IsImageName(f: string)
  {
    (EndsWith(f, ".jpg") || EndsWith(f, ".jpeg") || EndsWith(f, ".png") || EndsWith(f, ".gif"))
    && !EndsWith(f, ".json")
  }

  predicate IsImageEntry(e: Entry) { IsImageName(e.name) }

  /** The second half of the test never rejects anything the first half accepts. */
  lemma JsonTestIsRedundant(f: string)
    requires EndsWith(f, ".jpg") || EndsWith(f, ".jpeg") || EndsWith(f, ".png") || EndsWith(f, ".gif")
    ensures IsImageName(f)
  {
    assert f[|f| - 1] != 'n';
  }

  /** The image entries, newest first (server.js:142-152). */
  function SortedEntries(dir: seq<Entry>): seq<Entry>
  {
    SortDesc(Filter(dir, IsImageEntry), MTime)
  }

  /** The file names in gallery order (server.js:147-153). */
  function SortedImages(dir: seq<Entry>): seq<string>
  {
    Names(SortedEntries(dir))
  }

  /** Math.ceil(n / d). For d > 0 it is the least number of pages of size d
      that hold n items. */
  function CeilDiv(n: nat, d: int): (r: int)
    requires d != 0
    ensures d > 0 ==> 0 <= r && n <= r * d && (r == 0 || (r - 1) * d < n)
    ensures d > 0 && n == 0 ==> r == 0
    ensures d < 0 ==> r <= 0
  {
    if d > 0 then
      var q := (n + d - 1) / d;
      var m := (n + d - 1) % d;
      assert n + d - 1 == q * d + m && 0 <= m < d;
      assert (q - 1) * d == q * d - d;
      q
    else -(n / -d)
  }

  /** The reply of `/api/images`. */
  datatype ImagesReply =
    | ImagesPage(images: seq<string>, totalPages: int, currentPage: int)
    | ImagesError(status: int, error: string)

  /** `parseInt(..) || fallback`: a missing or unparseable value (NaN, here None)
      and a parsed 0 are both falsy and give the fallback. */
  function QueryInt(q: Option<int>, fallback: int): (r: int)
    ensures fallback != 0 ==> r != 0
    ensures q == None || q == Some(0) ==> r == fallback
    ensures q.Some? && q.value != 0 ==> r == q.value
  {
    if q.None? || q.value == 0 then fallback else q.value
  }

  /** One page of an already sorted listing (server.js:155-163). */
  function ListPage(sorted: seq<string>, page: int, pageSize: int): ImagesReply
    requires pageSize != 0
  {
    ImagesPage(Slice(sorted, (page - 1) * pageSize, page * pageSize), CeilDiv(|sorted|, pageSize), page)
  }

  /** GET /api/images?page&pageSize (server.js:132-165). */
  function ListImages(pageQuery: Option<int>, sizeQuery: Option<int>, listing: Listing<Entry>): (r: ImagesReply)
    ensures listing.Unreadable? ==> r == ImagesError(500, "Could not read images directory")
    ensures listing.Listed? ==> r.ImagesPage? && r.currentPage == QueryInt(pageQuery, 1)
    ensures listing.Listed? ==> forall n | n in r.images :: IsImageName(n) && n in Names(listing.files)
  {
    match listing
    case Unreadable => ImagesError(500, "Could not read images directory")
    case Listed(dir) =>
      var page := QueryInt(pageQuery, 1);
      var pageSize := QueryInt(sizeQuery, 50);
      var r := ListPage(SortedImages(dir), page, pageSize);
      assert forall n | n in r.images :: n in SortedImages(dir) by {
        var sorted := SortedImages(dir);
        var from := SliceIndex((page - 1) * pageSize, |sorted|);
        var to := SliceIndex(page * pageSize, |sorted|);
        forall n | n in r.images ensures n in sorted {
          var k :| 0 <= k < |r.images| && r.images[k] == n;
          assert n == sorted[from + k];
        }
      }
      SortedImagesAreListedImages(dir);
      r
  }

  /** Every name in the gallery order is the name of an image file of the directory. */
  lemma SortedImagesAreListedImages(dir: seq<Entry>)
    ensures forall n | n in SortedImages(dir) :: IsImageName(n) && n in Names(dir)
  {
    var sorted := SortedEntries(dir);
    forall n | n in SortedImages(dir) ensures IsImageName(n) && n in Names(dir) {
      var k :| 0 <= k < |sorted| && Names(sorted)[k] == n;
      assert sorted[k] in multiset(sorted);
      assert sorted[k] in Filter(dir, IsImageEntry);
      var j :| 0 <= j < |dir| && dir[j] == sorted[k];
      assert Names(dir)[j] == n;
    }
  }

  /** The gallery order lists each image name of the directory exactly as often
      as the directory does, and so, in a directory (where names are unique),
      lists no name twice. */
  lemma {:induction false} SortedImagesArePermutation(dir: seq<Entry>)
    ensures multiset(SortedImages(dir)) == multiset(Names(Filter(dir, IsImageEntry)))
    ensures NoDup(Names(dir)) ==> NoDup(SortedImages(dir))
  {
    MapSortMultiset(Filter(dir, IsImageEntry), MTime, Name);
    if NoDup(Names(dir)) {
      FilterKeepsDistinctNames(dir);
      NoDupPermutation(Names(Filter(dir, IsImageEntry)), SortedImages(dir));
    }
  }

  lemma {:induction false} FilterKeepsDistinctNames(dir: seq<Entry>)
    requires NoDup(Names(dir))
    ensures NoDup(Names(Filter(dir, IsImageEntry)))
  {
    if dir != [] {
      assert Names(dir) == [dir[0].name] + Names(dir[1..]);
      assert NoDup(Names(dir[1..])) by {
        var t := Names(dir[1..]);
        forall i, j | 0 <= i < j < |t| ensures t[i] != t[j] {
          assert t[i] == Names(dir)[i + 1] && t[j] == Names(dir)[j + 1];
        }
      }
      FilterKeepsDistinctNames(dir[1..]);
      var rest := Filter(dir[1..], IsImageEntry);
      if IsImageEntry(dir[0]) {
        assert Filter(dir, IsImageEntry) == [dir[0]] + rest;
        MapAppend([dir[0]], rest, Name);
        forall j | 0 <= j < |rest| ensures rest[j].name != dir[0].name {
          assert rest[j] in dir[1..];
          var m :| 0 <= m < |dir[1..]| && dir[1..][m] == rest[j];
          assert Names(dir)[m + 1] == rest[j].name;
        }
      }
    }
  }

  /** The gallery is newest first, and files with equal modification times keep
      the order in which fs.readdir returned them. */
  lemma SortedEntriesOrder(dir: seq<Entry>, t: int)
    ensures SortedDesc(SortedEntries(dir), MTime)
    ensures multiset(SortedEntries(dir)) == multiset(Filter(dir, IsImageEntry))
    ensures WithKey(SortedEntries(dir), MTime, t) == WithKey(Filter(dir, IsImageEntry), MTime, t)
  {
    SortIsStable(Filter(dir, IsImageEntry), MTime, t);
  }

  /** For page p >= 1 and size s >= 1 the page is the slice
      [(p-1)*s, min(p*s, N)) of the sorted listing, of length
      min(s, max(0, N - (p-1)*s)), and totalPages is ceil(N / s). */
  lemma PageContents(sorted: seq<string>, p: int, s: int)
    requires p >= 1 && s >= 1
    ensures var r := ListPage(sorted, p, s);
      && r.images == sorted[Min((p - 1) * s, |sorted|)..Min(p * s, |sorted|)]
      && |r.images| == Min(s, Max(0, |sorted| - (p - 1) * s))
      && r.totalPages * s >= |sorted| && (r.totalPages == 0 || (r.totalPages - 1) * s < |sorted|)
      && r.currentPage == p
  {
    assert p * s == (p - 1) * s + s;
    assert (p - 1) * s >= 0;
  }

  /** With no `page` and no `pageSize` (or zeros), the reply is page 1 of
      the gallery at the default size 50: its first min(50, N) names, and
      ceil(N / 50) pages. */
  lemma DefaultPage(dir: seq<Entry>)
    ensures var s := SortedImages(dir);
      ListImages(None, None, Listed(dir)) == ImagesPage(s[..Min(50, |s|)], CeilDiv(|s|, 50), 1)
  {
    var s := SortedImages(dir);
    PageContents(s, 1, 50);
    assert ListImages(None, None, Listed(dir)) == ListPage(s, 1, 50);
  }

  /** An explicit page p >= 1 of size n >= 1 is the slice
      [(p-1)*n, min(p*n, N)) of the gallery, with ceil(N / n) pages. */
  lemma RequestedPage(dir: seq<Entry>, p: int, n: int)
    requires p >= 1 && n >= 1
    ensures 0 <= (p - 1) * n <= p * n
    ensures ListImages(Some(p), Some(n), Listed(dir)).images
      == SortedImages(dir)[Min((p - 1) * n, |SortedImages(dir)|)..Min(p * n, |SortedImages(dir)|)]
    ensures ListImages(Some(p), Some(n), Listed(dir)).totalPages == CeilDiv(|SortedImages(dir)|, n)
    ensures ListImages(Some(p), Some(n), Listed(dir)).currentPage == p
  {
    assert p * n == (p - 1) * n + n;
    assert (p - 1) * n >= 0;
    ExplicitQueries(dir, p, n);
    PageContents(SortedImages(dir), p, n);
  }

  /** Non-zero queries are taken as given. */
  lemma ExplicitQueries(dir: seq<Entry>, p: int, n: int)
    requires p != 0 && n != 0
    ensures ListImages(Some(p), Some(n), Listed(dir)) == ListPage(SortedImages(dir), p, n)
  {
    assert QueryInt(Some(p), 1) == p && QueryInt(Some(n), 50) == n;
  }

  /** Pages 1..k of a listing laid end to end. */
  function Pages(sorted: seq<string>, s: int, k: nat): seq<string>
    requires s >= 1
  {
    if k == 0 then [] else Pages(sorted, s, k - 1) + ListPage(sorted, k, s).images
  }

  lemma {:induction false} PagesArePrefix(sorted: seq<string>, s: int, k: nat)
    requires s >= 1
    ensures Pages(sorted, s, k) == sorted[..Min(k * s, |sorted|)]
  {
    if k > 0 {
      PagesArePrefix(sorted, s, k - 1);
      var a, b := PageBounds(sorted, s, k);
      assert Pages(sorted, s, k) == sorted[..a] + sorted[a..b];
      assert sorted[..a] + sorted[a..b] == sorted[..b];
    }
  }

  /** Page k starts where pages 1..k-1 end. */
  lemma PageBounds(sorted: seq<string>, s: int, k: nat) returns (a: nat, b: nat)
    requires s >= 1 && k >= 1
    ensures a == Min((k - 1) * s, |sorted|) && b == Min(k * s, |sorted|) && a <= b <= |sorted|
    ensures ListPage(sorted, k, s).images == sorted[a..b]
  {
    assert k * s == (k - 1) * s + s && (k - 1) * s >= 0;
    a := Min((k - 1) * s, |sorted|);
    b := Min(k * s, |sorted|);
    PageContents(sorted, k, s);
  }

  /** Concatenating pages 1..totalPages gives back the whole sorted listing:
      no item is left out and none is repeated. */
  lemma PagesCoverListing(sorted: seq<string>, s: int)
    requires s >= 1
    ensures var total := ListPage(sorted, 1, s).totalPages;
      total >= 0 && Pages(sorted, s, total) == sorted
  {
    var total := CeilDiv(|sorted|, s);
    PagesArePrefix(sorted, s, total);
    assert sorted[..|sorted|] == sorted;
  }

  /** The example of two files a.jpg (mtime 10) and b.png (mtime 20), one per page. */
  lemma TwoFileExample()
    ensures var dir := Listed([Entry("a.jpg", 10), Entry("b.png", 20)]);
      && ListImages(Some(1), Some(1), dir) == ImagesPage(["b.png"], 2, 1)
      && ListImages(Some(2), Some(1), dir) == ImagesPage(["a.jpg"], 2, 2)
  {
    TwoFileOrder();
    var sorted := ["b.png", "a.jpg"];
    assert ListPage(sorted, 1, 1) == ImagesPage(sorted[0..1], 2, 1);
    assert ListPage(sorted, 2, 1) == ImagesPage(sorted[1..2], 2, 2);
  }

  lemma TwoFileOrder()
    ensures SortedImages([Entry("a.jpg", 10), Entry("b.png", 20)]) == ["b.png", "a.jpg"]
  {
    var a, b := Entry("a.jpg", 10), Entry("b.png", 20);
    TwoFileFilter();
    TwoFileSort();
    assert SortedEntries([a, b]) == [b, a];
    assert Names([b, a]) == ["b.png", "a.jpg"];
  }

  lemma TwoFileFilter()
    ensures Filter([Entry("a.jpg", 10), Entry("b.png", 20)], IsImageEntry) == [Entry("a.jpg", 10), Entry("b.png", 20)]
  {
    var a, b := Entry("a.jpg", 10), Entry("b.png", 20);
    assert IsImageEntry(a) by { assert "a.jpg"[1..] == ".jpg"; }
    assert IsImageEntry(b) by { assert "b.png"[1..] == ".png"; }
    assert [a, b][1..] == [b] && [b][1..] == [];
    assert Filter([b], IsImageEntry) == [b];
  }

  lemma TwoFileSort()
    ensures SortDesc([Entry("a.jpg", 10), Entry("b.png", 20)], MTime) == [Entry("b.png", 20), Entry("a.jpg", 10)]
  {
    var a, b := Entry("a.jpg", 10), Entry("b.png", 20);
    assert [a, b][1..] == [b] && [b][1..] == [];
    assert SortDesc([b], MTime) == [b];
    assert Insert(a, [b], MTime) == [b] + Insert(a, [], MTime);
  }

  /** The reply of `/api/test/videos`. */
  datatype VideosReply = Videos(videos: seq<string>) | VideosError(status: int, error: string)

  predicate IsVideoName(f: string)
  {
    EndsWith(f, ".mov") || EndsWith(f, ".mp4") || EndsWith(f, ".avi")
  }

  /** GET /api/test/videos (server.js:83-101): no directory gives an empty list. */
  function ListVideos(dirExists: bool, listing: Listing<string>): (r: VideosReply)
    ensures !dirExists ==> r == Videos([])
    ensures dirExists && listing.Unreadable? ==> r == VideosError(500, "Could not read videos directory")
    ensures dirExists && listing.Listed? ==>
      && r.Videos?
      && (forall v | v in r.videos :: v in listing.files && IsVideoName(v))
      && (forall v | v in listing.files && IsVideoName(v) :: v in r.videos)
  {
    if !dirExists then Videos([])
    else match listing
      case Unreadable => VideosError(500, "Could not read videos directory")
      case Listed(files) => Videos(Filter(files, IsVideoName))
  }
}
