/**
 * The results loaded for one directory (`PreloadedFolder`): a set of
 * results plus the number of entries the directory listing announced.
 * The folder is complete once it holds exactly that many distinct results.
 */
module PreloadedFolders {

  class PreloadedFolder<D(==)> {
    /** The expected number of results, fixed at construction. */
    const foldersToContain: int
    /** The results so far; the source's class is itself the `HashSet`. */
    var elements: set<D>

    constructor (foldersToContain: int)
      ensures this.foldersToContain == foldersToContain && elements == {}
    {
      this.foldersToContain := foldersToContain;
      elements := {};
    }

    /** `HashSet.add`: true exactly when `element` was not there yet. */
    method Add(element: D) returns (added: bool)
      modifies this
      ensures added <==> element !in old(elements)
      ensures elements == old(elements) + {element}
      ensures |elements| == |old(elements)| + (if added then 1 else 0)
    {
      added := element !in elements;
      if added {
        assert elements !! {element};
      } else {
        assert elements + {element} == elements;
      }
      elements := elements + {element};
    }

    /**
     * `isComplete()`: the size has reached the expected count exactly. A
     * negative count is never reached, and a folder holding nothing is
     * complete only when it expects nothing.
     */
    predicate IsComplete()
      reads this
      ensures foldersToContain < 0 ==> !IsComplete()
      ensures elements == {} ==> (IsComplete() <==> foldersToContain == 0)
    {
      |elements| == foldersToContain
    }

    /**
     * Completeness is exact, not a threshold: nothing stops `Add` from
     * passing the expected count, and past it the folder is incomplete
     * again for good.
     */
    lemma {:induction false} PastCountNeverComplete(more: set<D>)
      requires IsComplete()
      requires more !! elements && more != {}
      ensures |elements + more| != foldersToContain
      ensures |elements + more| > foldersToContain
    {
      var x :| x in more;
      assert elements + more >= elements + {x};
      assert |elements + {x}| == |elements| + 1;
      SubsetSize(elements + {x}, elements + more);
    }

    lemma {:induction false} SubsetSize(a: set<D>, b: set<D>)
      requires a <= b
      ensures |a| <= |b|
    {
      assert b == a + (b - a);
    }
  }

  /** A folder expecting nothing is complete as soon as it is made. */
  method EmptyListingIsComplete() returns (complete: bool)
    ensures complete
  {
    var f := new PreloadedFolder<int>(0);
    complete := f.IsComplete();
  }

  /**
   * A folder expecting two results: adding the same result twice leaves it
   * incomplete, a second distinct result completes it, and a third one
   * makes it incomplete again.
   */
  method CompletionIsExact() returns (added: seq<bool>, complete: seq<bool>)
    ensures added == [true, false, true, true]
    ensures complete == [false, false, true, false]
  {
    var f := new PreloadedFolder<int>(2);
    var a1 := f.Add(7);
    var c1 := f.IsComplete();
    var a2 := f.Add(7);
    var c2 := f.IsComplete();
    var a3 := f.Add(8);
    var c3 := f.IsComplete();
    var a4 := f.Add(9);
    var c4 := f.IsComplete();
    added, complete := [a1, a2, a3, a4], [c1, c2, c3, c4];
  }
}
