/** The player screen's state and the handlers that change it (App.tsx).
    Each `useState` pair becomes a field and each handler a method; the
    values a handler assigns come from the functions of module Queue, and
    a search goes through module YouTubeService with the response that
    `fetch` would deliver passed in. */
module App {
  import opened Wrappers
  import opened Types
  import opened Queue
  import YouTubeService
  import Seekbar

  /** The three screens. */
  datatype View = SearchView | PlayerView | SettingsView

  /** The mini player's duration label, written out as the source writes it
      inline: `m:ss` when the duration is positive, `...` otherwise. */
  function MiniPlayerDuration(duration: nat): string {
    if duration > 0 then
      Seekbar.Decimal(duration / 60) + ":" + (if duration % 60 < 10 then "0" else "")
        + Seekbar.Decimal(duration % 60)
    else "..."
  }

  /** The inline label agrees with `formatTime` on every positive
      duration. */
  lemma MiniPlayerMatchesFormatTime(duration: nat)
    ensures duration > 0 ==> MiniPlayerDuration(duration) == Seekbar.FormatTime(duration)
    ensures duration == 0 ==> MiniPlayerDuration(duration) == "..."
  {
  }

  class AppState {
    var apiKey: string
    var query: string
    var results: seq<VideoItem>
    var queue: seq<VideoItem>
    var currentIndex: int
    var isPlaying: bool
    var currentTime: real
    var duration: real
    var isShuffle: bool
    var view: View
    var isLoading: bool
    var error: Option<string>

    /** The queue invariant, kept by every handler. */
    ghost predicate Valid()
      reads this
    {
      QueueInvariant(queue, currentIndex)
    }

    /** The initial state of every `useState`. */
    constructor ()
      ensures Valid()
      ensures apiKey == "" && query == "" && results == []
      ensures queue == [] && currentIndex == -1
      ensures !isPlaying && currentTime == 0.0 && duration == 0.0
      ensures !isShuffle && view == SearchView && !isLoading && error == None
    {
      apiKey, query, results := "", "", [];
      queue, currentIndex := [], -1;
      isPlaying, currentTime, duration := false, 0.0, 0.0;
      isShuffle, view, isLoading, error := false, SearchView, false, None;
    }

    /** `queue[currentIndex]`: the track being played, `undefined` when
        there is none; present exactly when the queue is not empty. */
    function CurrentTrack(): (r: Option<VideoItem>)
      reads this
      ensures r.Some? <==> 0 <= currentIndex < |queue|
      ensures r.Some? ==> r.value in queue && r.value == queue[currentIndex]
      ensures QueueInvariant(queue, currentIndex) ==> (r.None? <==> queue == [])
    {
      if 0 <= currentIndex < |queue| then Some(queue[currentIndex]) else None
    }

    /** The start-up effect: a non-empty stored key becomes the key. */
    method RestoreKey(stored: Option<string>)
      requires Valid()
      modifies this`apiKey
      ensures Valid()
      ensures apiKey == if stored.Some? && stored.value != "" then stored.value else old(apiKey)
    {
      if stored.Some? && stored.value != "" {
        apiKey := stored.value;
      }
    }

    /** `handleSaveKey`: keep the key and go back to the search screen. */
    method SaveKey(key: string)
      requires Valid()
      modifies this`apiKey, this`view
      ensures Valid()
      ensures apiKey == key && view == SearchView
    {
      apiKey := key;
      view := SearchView;
    }

    /** The key field on the settings screen. */
    method EditApiKey(key: string)
      requires Valid()
      modifies this`apiKey
      ensures Valid() && apiKey == key
    {
      apiKey := key;
    }

    /** The search box. */
    method EditQuery(text: string)
      requires Valid()
      modifies this`query
      ensures Valid() && query == text
    {
      query := text;
    }

    /** The buttons that only switch screens. */
    method ShowView(v: View)
      requires Valid()
      modifies this`view
      ensures Valid() && view == v
    {
      view := v;
    }

    /** `handleSearch`: a blank query does nothing; a missing key only
        opens the settings; otherwise the outcome of the search replaces the
        results or sets the error, and loading ends. The queue is never
        touched. */
    method HandleSearch(response: YouTubeService.Response)
      requires Valid()
      modifies this`view, this`isLoading, this`error, this`results
      ensures Valid()
      ensures Trim(query) == [] ==>
        view == old(view) && isLoading == old(isLoading) && error == old(error) && results == old(results)
      ensures Trim(query) != [] && apiKey == "" ==>
        view == SettingsView && isLoading == old(isLoading) && error == old(error) && results == old(results)
      ensures Trim(query) != [] && apiKey != "" ==>
        && view == old(view) && !isLoading
        && match YouTubeService.Search(query, apiKey, response)
           case Success(items) => results == items && error == None
           case Failure(message) => results == old(results) && error == Some(message)
    {
      if Trim(query) == [] {
        return;
      }
      if apiKey == "" {
        view := SettingsView;
        return;
      }
      isLoading := true;
      error := None;
      match YouTubeService.Search(query, apiKey, response) {
        case Success(items) =>
          results := items;
        case Failure(message) =>
          error := Some(message);
      }
      isLoading := false;
    }

    /** `playTrack`: without shuffle the list is played as it is from the
        chosen position; with shuffle the chosen track comes first, followed
        by some permutation of the other entries with a different id. Either
        way playback starts on the player screen. The list's own order is
        only used, and so the index only needs to be a position in the
        list, when shuffle is off; the one caller passes the position of
        the clicked result. */
    method PlayTrack(video: VideoItem, index: int, fromList: seq<VideoItem>)
      requires Valid()
      requires !isShuffle ==> 0 <= index < |fromList|
      modifies this`queue, this`currentIndex, this`isPlaying, this`view
      ensures Valid()
      ensures !isShuffle ==> queue == fromList && currentIndex == index
      ensures isShuffle ==>
        && currentIndex == 0 && queue[0] == video
        && multiset(queue[1..]) == multiset(RemoveId(fromList, video.id))
        && |queue| == 1 + |fromList| - CountId(fromList, video.id)
      ensures isShuffle && video in fromList && CountId(fromList, video.id) == 1 ==>
        multiset(queue) == multiset(fromList)
      ensures isPlaying && view == PlayerView
    {
      if isShuffle {
        var remaining := RemoveId(fromList, video.id);
        // Shows a witness (the value itself) for the `:|` choice below.
        assert multiset(remaining) == multiset(remaining);
        var shuffled :| multiset(shuffled) == multiset(remaining);
        assert |shuffled| == |multiset(shuffled)| == |remaining|;
        queue := [video] + shuffled;
        assert queue[1..] == shuffled;
        if video in fromList && CountId(fromList, video.id) == 1 {
          ShuffledQueueIsPermutation(video, fromList, shuffled);
        }
        currentIndex := 0;
      } else {
        queue := fromList;
        currentIndex := index;
      }
      isPlaying := true;
      view := PlayerView;
    }

    /** `playRandomResults`: nothing without results; otherwise the queue
        becomes some permutation of the results, played from its first
        entry on the player screen. */
    method PlayRandomResults()
      requires Valid()
      modifies this`queue, this`currentIndex, this`isPlaying, this`view
      ensures Valid()
      ensures results == [] ==>
        queue == old(queue) && currentIndex == old(currentIndex)
        && isPlaying == old(isPlaying) && view == old(view)
      ensures results != [] ==>
        && multiset(queue) == multiset(results) && |queue| == |results|
        && currentIndex == 0 && isPlaying && view == PlayerView
    {
      if |results| == 0 {
        return;
      }
      // Shows a witness (the value itself) for the `:|` choice below.
      assert multiset(results) == multiset(results);
      var shuffled :| multiset(shuffled) == multiset(results);
      assert |shuffled| == |multiset(shuffled)| == |results|;
      queue := shuffled;
      currentIndex := 0;
      isPlaying := true;
      view := PlayerView;
    }

    /** `handleNext`, also run when a track ends: step forward, wrapping to
        the start; nothing on an empty queue. */
    method HandleNext()
      requires Valid()
      modifies this`currentIndex
      ensures Valid()
      ensures queue == [] ==> currentIndex == old(currentIndex)
      ensures queue != [] ==> currentIndex == NextIndex(old(currentIndex), |queue|)
    {
      if |queue| == 0 {
        return;
      }
      var nextIndex := (currentIndex + 1) % |queue|;
      currentIndex := nextIndex;
    }

    /** `handlePrev`: step back, wrapping to the end; nothing on an empty
        queue. */
    method HandlePrev()
      requires Valid()
      modifies this`currentIndex
      ensures Valid()
      ensures queue == [] ==> currentIndex == old(currentIndex)
      ensures queue != [] ==> currentIndex == PrevIndex(old(currentIndex), |queue|)
    {
      if |queue| == 0 {
        return;
      }
      var prevIndex := (currentIndex - 1 + |queue|) % |queue|;
      currentIndex := prevIndex;
    }

    /** `handleTimeUpdate`: the player's polled position. */
    method HandleTimeUpdate(current: real, total: real)
      requires Valid()
      modifies this`currentTime, this`duration
      ensures Valid() && currentTime == current && duration == total
    {
      currentTime, duration := current, total;
    }

    /** The shuffle button flips the mode; the current queue stays as it
        is. */
    method ToggleShuffle()
      requires Valid()
      modifies this`isShuffle
      ensures Valid() && isShuffle == !old(isShuffle)
    {
      isShuffle := !isShuffle;
    }

    /** The play/pause buttons flip the playback intent. */
    method TogglePlay()
      requires Valid()
      modifies this`isPlaying
      ensures Valid() && isPlaying == !old(isPlaying)
    {
      isPlaying := !isPlaying;
    }
  }

  /** A session as the player sees it: a track ends at index 2 of a four
      track queue, so the next one plays; stepping back returns to it, and
      four more steps forward come round to it again. */
  method EndedAdvancesOnce(a: VideoItem, b: VideoItem, c: VideoItem, d: VideoItem)
  {
    var app := new AppState();
    app.PlayTrack(c, 2, [a, b, c, d]);
    assert app.queue == [a, b, c, d] && app.CurrentTrack() == Some(c);
    app.HandleNext();
    assert app.currentIndex == 3 && app.CurrentTrack() == Some(d);
    app.HandlePrev();
    assert app.currentIndex == 2;
    app.HandleNext();
    app.HandleNext();
    assert app.currentIndex == 0;
    app.HandleNext();
    app.HandleNext();
    assert app.currentIndex == 2 && app.isPlaying && app.view == PlayerView;
  }
}
