/** The live gallery of public/script.js: the grid of image names, the
    image count shown above it and the page the grid was loaded from. The
    grid's DOM children are modelled by their `data-filename`, in order. */
module LiveGrid {
  import opened Base
  import opened Lists
  import Hub
  import Gallery

  /** The position of the first `x` in `s`: what querySelector finds. */
  function IndexOf<T(==)>(s: seq<T>, x: T): (i: nat)
    requires x in s
    ensures i < |s| && s[i] == x && x !in s[..i]
  {
    if s[0] == x then 0 else IndexOf(s[1..], x) + 1
  }

  /** The grid after addNewImageToGrid (public/script.js:107-144): a name the
      grid already shows is ignored; a new one goes in front. */
  function AddFront(names: seq<string>, n: string): seq<string>
  {
    if n in names then names else [n] + names
  }

  /** The grid after removeImageFromGrid (public/script.js:147-154): the
      first item with that name is removed, if there is one. */
  function RemoveFirst(names: seq<string>, n: string): seq<string>
  {
    if n in names then
      var i := IndexOf(names, n);
      names[..i] + names[i + 1..]
    else names
  }

  /** Adding shows the name, keeps every other name and their order, and
      grows the grid by one exactly when the name was new. */
  lemma AddFrontSpec(names: seq<string>, n: string)
    ensures n in AddFront(names, n)
    ensures forall m :: m in AddFront(names, n) <==> m == n || m in names
    ensures n in names ==> AddFront(names, n) == names
    ensures n !in names ==> AddFront(names, n)[0] == n && AddFront(names, n)[1..] == names
    ensures |AddFront(names, n)| == if n in names then |names| else |names| + 1
  {
    if n !in names {
      assert ([n] + names)[1..] == names;
    }
  }

  /** Adding never puts a name in the grid twice. */
  lemma AddFrontKeepsNoDup(names: seq<string>, n: string)
    requires NoDup(names)
    ensures NoDup(AddFront(names, n))
  {
    if n !in names {
      var r := [n] + names;
      forall i, j | 0 <= i < j < |r| ensures r[i] != r[j] {
        if i == 0 {
          assert r[j] == names[j - 1];
        } else {
          assert r[i] == names[i - 1] && r[j] == names[j - 1];
        }
      }
    }
  }

  /** Removing takes out one occurrence of the name and keeps the others in
      order; removing a name the grid does not show changes nothing. */
  lemma RemoveFirstSpec(names: seq<string>, n: string)
    ensures n !in names ==> RemoveFirst(names, n) == names
    ensures n in names ==> exists i | 0 <= i < |names| && names[i] == n && n !in names[..i] ::
      RemoveFirst(names, n) == names[..i] + names[i + 1..]
    ensures multiset(RemoveFirst(names, n)) == multiset(names) - multiset{n}
    ensures |RemoveFirst(names, n)| == if n in names then |names| - 1 else |names|
  {
    if n in names {
      var i := IndexOf(names, n);
      assert names == names[..i] + [names[i]] + names[i + 1..];
      assert RemoveFirst(names, n) == names[..i] + names[i + 1..];
    }
  }

  /** In a grid without duplicates, removing a name removes it entirely and
      keeps every other name. */
  lemma RemoveFirstNoDup(names: seq<string>, n: string)
    requires NoDup(names)
    ensures NoDup(RemoveFirst(names, n))
    ensures n !in RemoveFirst(names, n)
    ensures forall m | m != n :: m in RemoveFirst(names, n) <==> m in names
  {
    RemoveFirstSpec(names, n);
    NoDupIff(names);
    var r := RemoveFirst(names, n);
    NoDupIff(r);
    assert multiset(r)[n] == 0;
    forall m | m != n ensures m in r <==> m in names {
      assert m in r <==> m in multiset(r);
      assert m in names <==> m in multiset(names);
    }
  }

  /** Removing a name just added gives back the grid it was added to. */
  lemma AddThenRemove(names: seq<string>, n: string)
    requires n !in names
    ensures RemoveFirst(AddFront(names, n), n) == names
  {
    assert IndexOf([n] + names, n) == 0;
    assert ([n] + names)[1..] == names;
  }

  /** What fetching a page gives `loadImages`: a failed request or
      `response.json()` that throws, or the server's reply. */
  datatype Fetched = RequestFailed | Reply(reply: Gallery.ImagesReply)

  /** The gallery page's state: the grid, the count it shows and the global
      `currentPage`. */
  class Grid {
    var names: seq<string>
    var count: int
    var currentPage: int

    /** The count shown is the number of items in the grid. */
    predicate CountShown()
      reads this
    {
      count == |names|
    }

    constructor()
      ensures names == [] && count == 0 && currentPage == 1
    {
      names := [];
      count := 0;
      currentPage := 1;
    }

    /** addNewImageToGrid (public/script.js:107-144). A name the grid shows
        returns early, before the count is written. */
    method AddNewImage(name: string)
      modifies this
      ensures names == AddFront(old(names), name)
      ensures name in old(names) ==> count == old(count)
      ensures name !in old(names) ==> count == |names| == |old(names)| + 1
      ensures currentPage == old(currentPage)
      ensures old(CountShown()) ==> CountShown()
    {
      if name in names {
        return;
      }
      names := [name] + names;
      count := |names|;
    }

    /** removeImageFromGrid (public/script.js:147-154). */
    method RemoveImage(name: string)
      modifies this
      ensures names == RemoveFirst(old(names), name)
      ensures name in old(names) ==> count == |names| == |old(names)| - 1
      ensures name !in old(names) ==> names == old(names) && count == old(count)
      ensures currentPage == old(currentPage)
      ensures old(CountShown()) ==> CountShown()
    {
      if name in names {
        var i := IndexOf(names, name);
        names := names[..i] + names[i + 1..];
        count := |names|;
      }
    }

    /** The `directory_cleared` branch (public/script.js:41-44). */
    method Clear()
      modifies this
      ensures names == [] && count == 0
      ensures currentPage == old(currentPage)
    {
      names := [];
      count := 0;
    }

    /** loadImages (public/script.js:60-84): the page becomes current, then a
        reply with images replaces the grid and sets the count. A reply
        without `images` (the server's error reply) has already emptied the
        grid when `data.images.forEach` throws, so the count keeps its old
        value; a failed request changes nothing else. */
    method LoadImages(page: int, fetched: Fetched)
      modifies this
      ensures currentPage == page
      ensures fetched.Reply? && fetched.reply.ImagesPage? ==>
        names == fetched.reply.images && count == |fetched.reply.images|
      ensures fetched.Reply? && fetched.reply.ImagesError? ==> names == [] && count == old(count)
      ensures fetched.RequestFailed? ==> names == old(names) && count == old(count)
    {
      currentPage := page;
      match fetched {
        case RequestFailed =>
        case Reply(reply) =>
          names := [];
          match reply {
            case ImagesError(_, _) =>
            case ImagesPage(images, _, _) =>
              var i := 0;
              while i < |images|
                invariant 0 <= i <= |images|
                invariant names == images[..i]
                invariant currentPage == page && count == old(count)
              {
                names := names + [images[i]];
                i := i + 1;
              }
              assert images[..|images|] == images;
              count := |images|;
          }
      }
    }

    /** The scroll handler (public/script.js:188-192): the page number goes
        up by exactly one and that page is loaded into the grid. */
    method OnScrollNearBottom(fetched: Fetched)
      modifies this
      ensures currentPage == old(currentPage) + 1
      ensures fetched.Reply? && fetched.reply.ImagesPage? ==>
        names == fetched.reply.images && count == |fetched.reply.images|
      ensures fetched.Reply? && fetched.reply.ImagesError? ==> names == [] && count == old(count)
      ensures fetched.RequestFailed? ==> names == old(names) && count == old(count)
    {
      currentPage := currentPage + 1;
      LoadImages(currentPage, fetched);
    }

    /** The grid's onmessage handler (public/script.js:31-46). */
    method OnMessage(msg: Hub.Message)
      modifies this
      ensures msg.NewImage? ==> names == AddFront(old(names), msg.file)
      ensures msg.NewImage? ==> count == if msg.file in old(names) then old(count) else |names|
      ensures msg.ImageDeleted? ==> names == RemoveFirst(old(names), msg.file)
      ensures msg.ImageDeleted? ==> count == if msg.file in old(names) then |names| else old(count)
      ensures msg.DirectoryCleared? ==> names == [] && count == 0
      ensures msg.TestProgress? || msg.TestComplete? ==> names == old(names) && count == old(count)
      ensures currentPage == old(currentPage)
      ensures old(CountShown()) ==> CountShown()
    {
      match msg {
        case NewImage(file) => AddNewImage(file);
        case ImageDeleted(file) => RemoveImage(file);
        case DirectoryCleared => Clear();
        case TestProgress(_) =>
        case TestComplete(_, _) =>
      }
    }
  }

  /** A page of `/api/images` loaded into the grid, followed by live
      additions, never shows a name twice when the directory has no name twice. */
  lemma LiveGridHasNoDuplicates(
    pageQuery: Option<int>, sizeQuery: Option<int>, dir: seq<Gallery.Entry>, added: seq<string>)
    requires NoDup(Gallery.Names(dir))
    ensures NoDup(AddAll(Gallery.ListImages(pageQuery, sizeQuery, Gallery.Listed(dir)).images, added))
  {
    var page := Gallery.QueryInt(pageQuery, 1);
    var pageSize := Gallery.QueryInt(sizeQuery, 50);
    var sorted := Gallery.SortedImages(dir);
    Gallery.SortedImagesArePermutation(dir);
    assert Gallery.ListImages(pageQuery, sizeQuery, Gallery.Listed(dir)).images
        == Slice(sorted, (page - 1) * pageSize, page * pageSize);
    SliceKeepsNoDup(sorted, (page - 1) * pageSize, page * pageSize);
    AddAllKeepsNoDup(Slice(sorted, (page - 1) * pageSize, page * pageSize), added);
  }

  /** The grid after a run of `new_image` messages, oldest first. */
  function AddAll(names: seq<string>, added: seq<string>): seq<string>
    decreases |added|
  {
    if added == [] then names else AddAll(AddFront(names, added[0]), added[1..])
  }

  lemma {:induction false} AddAllKeepsNoDup(names: seq<string>, added: seq<string>)
    requires NoDup(names)
    ensures NoDup(AddAll(names, added))
    decreases |added|
  {
    if added != [] {
      AddFrontKeepsNoDup(names, added[0]);
      AddAllKeepsNoDup(AddFront(names, added[0]), added[1..]);
    }
  }
}
