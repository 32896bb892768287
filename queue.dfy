/** The pure arithmetic and list operations the player's handlers assign
    to its state (App.tsx): wrap-around stepping through the queue, the
    removal of the selected track before a shuffle, and the search box's
    blank-query test. */
module Queue {
  import opened Types

  /** The queue invariant: an empty queue with no selection, or a selection
      inside the queue. */
  predicate QueueInvariant(queue: seq<VideoItem>, index: int) {
    (queue == [] && index == -1) || 0 <= index < |queue|
  }

  /** `(currentIndex + 1) % queue.length`. */
  function NextIndex(i: int, n: nat): (r: int)
    requires 0 <= i < n
    ensures 0 <= r < n
    ensures r == 0 <==> i == n - 1
  {
    (i + 1) % n
  }

  /** `(currentIndex - 1 + queue.length) % queue.length`. */
  function PrevIndex(i: int, n: nat): (r: int)
    requires 0 <= i < n
    ensures 0 <= r < n
    ensures r == n - 1 <==> i == 0
  {
    (i - 1 + n) % n
  }

  lemma ModBelow(a: int, n: int)
    requires 0 <= a < n
    ensures a % n == a
  {
  }

  lemma ModWrap(a: int, n: int)
    requires n <= a < 2 * n
    ensures a % n == a - n
  {
  }

  /** Stepping back undoes stepping forward, and the other way round. */
  lemma NextPrevInverse(i: int, n: nat)
    requires 0 <= i < n
    ensures PrevIndex(NextIndex(i, n), n) == i
    ensures NextIndex(PrevIndex(i, n), n) == i
  {
    if i + 1 < n {
      ModBelow(i + 1, n);
      ModWrap(i + n, n);
    } else {
      ModWrap(i + 1, n);
      ModBelow(n - 1, n);
    }
    if i > 0 {
      ModWrap(i - 1 + n, n);
      ModBelow(i, n);
    } else {
      ModBelow(n - 1, n);
      ModWrap(n, n);
    }
  }

  /** The index after `k` calls of the next handler. */
  function Advance(i: int, k: nat, n: nat): (r: int)
    requires 0 <= i < n
    ensures 0 <= r < n
  {
    if k == 0 then i else NextIndex(Advance(i, k - 1, n), n)
  }

  /** Up to one lap, `k` steps forward move the selection `k` places,
      wrapping past the end of the queue. */
  lemma {:induction false} AdvanceWithinLap(i: int, k: nat, n: nat)
    requires 0 <= i < n && k <= n
    ensures Advance(i, k, n) == if i + k < n then i + k else i + k - n
  {
    if k > 0 {
      AdvanceWithinLap(i, k - 1, n);
      var j := Advance(i, k - 1, n);
      if j + 1 < n {
        ModBelow(j + 1, n);
      } else {
        ModWrap(j + 1, n);
      }
    }
  }

  /** Steps compose: `a` steps and then `b` more are `a + b` steps. */
  lemma {:induction false} AdvanceAdds(i: int, a: nat, b: nat, n: nat)
    requires 0 <= i < n
    ensures Advance(i, a + b, n) == Advance(Advance(i, a, n), b, n)
  {
    if b > 0 {
      AdvanceAdds(i, a, b - 1, n);
    }
  }

  /** The queue loops: one call of the next handler per entry comes back to
      the starting track, no shorter run of calls does, and from then on
      the selections repeat with period `n`. */
  lemma AdvanceCycle(i: int, n: nat)
    requires 0 <= i < n
    ensures Advance(i, n, n) == i
    ensures forall k :: 0 < k < n ==> Advance(i, k, n) != i
    ensures forall k: nat :: Advance(i, k + n, n) == Advance(i, k, n)
  {
    AdvanceWithinLap(i, n, n);
    forall k | 0 < k < n ensures Advance(i, k, n) != i {
      AdvanceWithinLap(i, k, n);
    }
    forall k: nat ensures Advance(i, k + n, n) == Advance(i, k, n) {
      AdvanceAdds(i, n, k, n);
      assert n + k == k + n;
    }
  }

  /** How many entries of `items` carry the id `id`. */
  function CountId(items: seq<VideoItem>, id: string): (r: nat)
    ensures r <= |items|
  {
    if items == [] then 0
    else (if items[0].id == id then 1 else 0) + CountId(items[1..], id)
  }

  /** `fromList.filter(v => v.id !== video.id)`: keeps, in order, exactly
      the entries whose id differs. */
  function RemoveId(items: seq<VideoItem>, id: string): (r: seq<VideoItem>)
    ensures |r| == |items| - CountId(items, id)
    ensures forall j :: 0 <= j < |r| ==> r[j].id != id && r[j] in items
  {
    if items == [] then []
    else if items[0].id == id then RemoveId(items[1..], id)
    else [items[0]] + RemoveId(items[1..], id)
  }

  /** The filter's result as a bag: no copy of anything with the removed
      id, and every other entry as often as in the input. */
  lemma {:induction false} RemoveIdMultiset(items: seq<VideoItem>, id: string, v: VideoItem)
    ensures multiset(RemoveId(items, id))[v] == if v.id == id then 0 else multiset(items)[v]
  {
    if items != [] {
      RemoveIdMultiset(items[1..], id, v);
      assert items == [items[0]] + items[1..];
    }
  }

  /** No two entries share an id. */
  predicate UniqueIds(items: seq<VideoItem>) {
    forall i, j :: 0 <= i < j < |items| ==> items[i].id != items[j].id
  }

  /** With unique ids, the selected track occurs once and no other entry
      has its id, so `ShuffledQueueIsPermutation` applies to every entry. */
  lemma {:induction false} UniqueIdsCount(items: seq<VideoItem>, video: VideoItem)
    requires UniqueIds(items) && video in items
    ensures CountId(items, video.id) == 1
    ensures multiset(items)[video] == 1
  {
    if items[0] == video {
      assert video !in items[1..] && CountId(items[1..], video.id) == 0 by {
        NoIdNoCount(items[1..], video.id);
      }
    } else {
      assert items[0].id != video.id by {
        var j :| 0 <= j < |items| && items[j] == video;
        assert j > 0;
      }
      UniqueIdsCount(items[1..], video);
    }
    assert items == [items[0]] + items[1..];
  }

  lemma {:induction false} NoIdNoCount(items: seq<VideoItem>, id: string)
    requires forall j :: 0 <= j < |items| ==> items[j].id != id
    ensures CountId(items, id) == 0
    ensures forall v: VideoItem :: v.id == id ==> v !in items
  {
    if items != [] {
      NoIdNoCount(items[1..], id);
      assert items == [items[0]] + items[1..];
    }
  }

  /** Every copy of an entry counts towards its id, and two different
      entries with the same id count separately. */
  lemma {:induction false} CountIdCovers(items: seq<VideoItem>, v: VideoItem, w: VideoItem)
    requires v.id == w.id
    ensures multiset(items)[v] <= CountId(items, v.id)
    ensures v != w ==> multiset(items)[v] + multiset(items)[w] <= CountId(items, v.id)
  {
    if items != [] {
      CountIdCovers(items[1..], v, w);
      assert items == [items[0]] + items[1..];
    }
  }

  /** The shuffled queue `[video, ...shuffled]` is a permutation of the list
      it was built from when the filter drops exactly one entry: the list
      holds the selected track and no other entry shares its id. Other ids
      may repeat. */
  lemma ShuffledQueueIsPermutation(video: VideoItem, fromList: seq<VideoItem>, shuffled: seq<VideoItem>)
    requires video in fromList && CountId(fromList, video.id) == 1
    requires multiset(shuffled) == multiset(RemoveId(fromList, video.id))
    ensures multiset([video] + shuffled) == multiset(fromList)
    ensures |[video] + shuffled| == |fromList|
  {
    var r := RemoveId(fromList, video.id);
    var q := [video] + shuffled;
    assert |shuffled| == |multiset(shuffled)| == |multiset(r)| == |r|;
    assert multiset(q) == multiset([video]) + multiset(shuffled);
    CountIdCovers(fromList, video, video);
    assert multiset(fromList)[video] == 1;
    forall v ensures multiset(q)[v] == multiset(fromList)[v] {
      RemoveIdMultiset(fromList, video.id, v);
      assert multiset(q)[v] == multiset([video])[v] + multiset(r)[v];
      if v == video {
        assert multiset(q)[v] == 1;
      } else if v.id == video.id {
        CountIdCovers(fromList, v, video);
        assert multiset(q)[v] == 0;
      } else {
        assert multiset(q)[v] == multiset(fromList)[v];
      }
    }
  }

  /** When the list holds two or more entries with the selected id, the
      shuffled queue is not a permutation of it: all of them are
      dropped and only the selected track is put back, so the queue is
      shorter than the list. */
  lemma DuplicatesDropped(video: VideoItem, fromList: seq<VideoItem>)
    requires CountId(fromList, video.id) >= 2
    ensures |[video] + RemoveId(fromList, video.id)| < |fromList|
  {
  }

  /** The characters `String.prototype.trim` removes: white space and line
      terminators. */
  predicate IsTrimmed(c: char) {
    || c == '\t' || c == '\n' || c == '\U{000B}' || c == '\U{000C}' || c == '\r'
    || c == ' ' || c == '\U{00A0}' || c == '\U{1680}' || ('\U{2000}' <= c <= '\U{200A}')
    || c == '\U{2028}' || c == '\U{2029}' || c == '\U{202F}' || c == '\U{205F}'
    || c == '\U{3000}' || c == '\U{FEFF}'
  }

  predicate AllTrimmed(s: string) {
    forall i :: 0 <= i < |s| ==> IsTrimmed(s[i])
  }

  function TrimStart(s: string): (r: string)
    ensures r == [] <==> AllTrimmed(s)
    ensures r != [] ==> !IsTrimmed(r[0])
  {
    if s != [] && IsTrimmed(s[0]) then TrimStart(s[1..]) else s
  }

  function TrimEnd(s: string): (r: string)
    ensures r == [] <==> AllTrimmed(s)
    ensures r <= s
  {
    if s != [] && IsTrimmed(s[|s| - 1]) then TrimEnd(s[..|s| - 1]) else s
  }

  /** `s.trim()`. */
  function Trim(s: string): string {
    TrimEnd(TrimStart(s))
  }

  /** `!query.trim()` holds exactly for queries made of white space only
      (including the empty query). */
  lemma BlankQuery(q: string)
    ensures Trim(q) == [] <==> AllTrimmed(q)
  {
  }
}
