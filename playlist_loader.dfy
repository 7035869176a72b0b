/**
 * The playlist fetch task (`PlaylistLoader.run`): find the playlist identifier in the URL, look
 * the playlist up, then read its tracks page by page and format each as "<name> - <artist>".
 * The catalog API is a value: a map from identifiers to playlists, whose page at `offset` is the
 * slice of its items the API returns for that offset and a limit of 100.
 */
module PlaylistLoading {
  import opened Wrappers
  import opened PlaylistId

  datatype Artist = Artist(name: string)
  datatype Track = Track(name: string, artists: seq<Artist>)

  /** One entry of a page: `track_item['track']`, which is null for a track that is gone. */
  type Item = Option<Track>

  datatype Playlist = Playlist(name: string, items: seq<Item>)

  datatype LoadError =
    | InvalidUrl          // "Invalid playlist URL. ..."; nothing is requested
    | PlaylistNotFound    // `sp.playlist(playlist_id)` raised
    | MissingArtist       // `track['artists'][0]` raised IndexError on a track without artists

  datatype LoadResult = Loaded(tracks: seq<string>, playlistName: string) | Failed(error: LoadError)

  /** One call `sp.playlist_tracks(playlist_id, offset=offset, limit=limit)`. */
  datatype PageRequest = PageRequest(offset: nat, limit: nat)

  const PAGE_LIMIT: nat := 100

  /** The items the API returns for a request at `offset` with limit 100. */
  function Page(items: seq<Item>, offset: nat): (page: seq<Item>)
    ensures |page| <= PAGE_LIMIT
    ensures |page| == PAGE_LIMIT <==> offset + PAGE_LIMIT <= |items|
  {
    if offset >= |items| then []
    else if offset + PAGE_LIMIT <= |items| then items[offset..offset + PAGE_LIMIT]
    else items[offset..]
  }

  /** The first `n` requests of the loop: offsets 0, 100, 200, ..., each with limit 100. */
  function Requests(n: nat): (r: seq<PageRequest>)
    ensures |r| == n
    ensures forall k :: 0 <= k < n ==> r[k].offset == PAGE_LIMIT * k && r[k].limit == PAGE_LIMIT
  {
    seq(n, k requires 0 <= k < n => PageRequest(PAGE_LIMIT * k, PAGE_LIMIT))
  }

  /** A present track without artists: formatting it raises. */
  predicate Malformed(item: Item)
  {
    item.Some? && item.value.artists == []
  }

  predicate WellFormed(items: seq<Item>)
  {
    forall j :: 0 <= j < |items| ==> !Malformed(items[j])
  }

  /** `f"{name} - {artist}"` with the first listed artist. */
  function SongEntry(t: Track): (r: string)
    requires t.artists != []
    ensures |r| == |t.name| + 3 + |t.artists[0].name|
    ensures r[..|t.name|] == t.name && r[|t.name|..|t.name| + 3] == " - "
    ensures r[|t.name| + 3..] == t.artists[0].name
  {
    t.name + " - " + t.artists[0].name
  }

  /** The song entries the loop appends for `items`, in order; null tracks add nothing. */
  function Entries(items: seq<Item>): (r: seq<string>)
    requires WellFormed(items)
    ensures |r| <= |items|
  {
    if items == [] then []
    else
      var last := items[|items| - 1];
      Entries(items[..|items| - 1]) + (if last.None? then [] else [SongEntry(last.value)])
  }

  /** Number of present (non-null) tracks, counted from the front. */
  function CountPresent(items: seq<Item>): nat
  {
    if items == [] then 0 else (if items[0].Some? then 1 else 0) + CountPresent(items[1..])
  }

  /** Entries of consecutive item lists are consecutive. */
  lemma {:induction false} EntriesAppend(a: seq<Item>, b: seq<Item>)
    requires WellFormed(a) && WellFormed(b)
    ensures WellFormed(a + b)
    ensures Entries(a + b) == Entries(a) + Entries(b)
    decreases |b|
  {
    if b != [] {
      var b' := b[..|b| - 1];
      assert (a + b)[..|a + b| - 1] == a + b';
      EntriesAppend(a, b');
    } else {
      assert a + b == a;
    }
  }

  /** Every present track yields exactly one entry and every null track none. */
  lemma {:induction false} EntriesLength(items: seq<Item>)
    requires WellFormed(items)
    ensures |Entries(items)| == CountPresent(items)
    decreases |items|
  {
    if items != [] {
      assert items == [items[0]] + items[1..];
      EntriesAppend([items[0]], items[1..]);
      EntriesLength(items[1..]);
      assert [items[0]][..0] == [];
    }
  }

  /** The pages the loop reads, starting at `offset`, up to and including the first short one. */
  function PagesFrom(items: seq<Item>, offset: nat): seq<seq<Item>>
    requires offset <= |items|
    decreases |items| - offset
  {
    var page := Page(items, offset);
    if |page| < PAGE_LIMIT then [page] else [page] + PagesFrom(items, offset + PAGE_LIMIT)
  }

  function Pages(items: seq<Item>): seq<seq<Item>>
  {
    PagesFrom(items, 0)
  }

  function Flatten<T>(pages: seq<seq<T>>): seq<T>
  {
    if pages == [] then [] else pages[0] + Flatten(pages[1..])
  }

  lemma {:induction false} PagesFromSpec(items: seq<Item>, offset: nat)
    requires offset <= |items| && offset % PAGE_LIMIT == 0
    ensures |PagesFrom(items, offset)| == (|items| - offset) / PAGE_LIMIT + 1
    ensures Flatten(PagesFrom(items, offset)) == items[offset..]
    ensures forall k :: 0 <= k < |PagesFrom(items, offset)| - 1 ==> |PagesFrom(items, offset)[k]| == PAGE_LIMIT
    ensures |PagesFrom(items, offset)[|PagesFrom(items, offset)| - 1]| < PAGE_LIMIT
    decreases |items| - offset
  {
    var page := Page(items, offset);
    if |page| < PAGE_LIMIT {
      assert Flatten([page]) == page;
    } else {
      PagesFromSpec(items, offset + PAGE_LIMIT);
      var rest := PagesFrom(items, offset + PAGE_LIMIT);
      assert ([page] + rest)[1..] == rest;
      assert items[offset..] == page + items[offset + PAGE_LIMIT..];
    }
  }

  /** Page `k` of the loop, counted from `offset`, is what the API returns at `offset + 100 * k`. */
  lemma {:induction false} PagesFromAt(items: seq<Item>, offset: nat)
    requires offset <= |items|
    ensures forall k :: 0 <= k < |PagesFrom(items, offset)| ==>
      PagesFrom(items, offset)[k] == Page(items, offset + PAGE_LIMIT * k)
    decreases |items| - offset
  {
    var page := Page(items, offset);
    if |page| == PAGE_LIMIT {
      PagesFromAt(items, offset + PAGE_LIMIT);
      var rest := PagesFrom(items, offset + PAGE_LIMIT);
      forall k | 1 <= k < |[page] + rest|
        ensures ([page] + rest)[k] == Page(items, offset + PAGE_LIMIT * k)
      {
        assert ([page] + rest)[k] == rest[k - 1];
        assert offset + PAGE_LIMIT + PAGE_LIMIT * (k - 1) == offset + PAGE_LIMIT * k;
      }
    }
  }

  /**
   * The loop reads `|items| / 100 + 1` pages: all full but the last, which is short (possibly
   * empty, when the count is a multiple of 100); together they are the playlist's items in order.
   */
  lemma PagesSpec(items: seq<Item>)
    ensures |Pages(items)| == |items| / PAGE_LIMIT + 1
    ensures Flatten(Pages(items)) == items
    ensures forall k :: 0 <= k < |Pages(items)| - 1 ==> |Pages(items)[k]| == PAGE_LIMIT
    ensures |Pages(items)[|Pages(items)| - 1]| < PAGE_LIMIT
    ensures forall k :: 0 <= k < |Pages(items)| ==> Pages(items)[k] == Page(items, PAGE_LIMIT * k)
  {
    PagesFromSpec(items, 0);
    PagesFromAt(items, 0);
  }

  /** The collected list is the concatenation of each page's entries, page after page. */
  lemma {:induction false} EntriesByPage(pages: seq<seq<Item>>)
    requires forall k :: 0 <= k < |pages| ==> WellFormed(pages[k])
    ensures WellFormed(Flatten(pages))
    ensures Entries(Flatten(pages)) == Flatten(seq(|pages|, k requires 0 <= k < |pages| => Entries(pages[k])))
  {
    if pages != [] {
      EntriesByPage(pages[1..]);
      EntriesAppend(pages[0], Flatten(pages[1..]));
      var all := seq(|pages|, k requires 0 <= k < |pages| => Entries(pages[k]));
      assert all[1..] == seq(|pages[1..]|, k requires 0 <= k < |pages[1..]| => Entries(pages[1..][k]));
    }
  }

  /** Two positions that are each the first malformed item are the same position. */
  lemma FirstMalformedUnique(items: seq<Item>, i: nat, j: nat)
    requires i < |items| && Malformed(items[i]) && WellFormed(items[..i])
    requires j < |items| && Malformed(items[j]) && WellFormed(items[..j])
    ensures i == j
  {
  }

  /** The request list grows by one request at the next offset. */
  lemma RequestsNext(n: nat)
    ensures Requests(n) + [PageRequest(PAGE_LIMIT * n, PAGE_LIMIT)] == Requests(n + 1)
  {
  }

  /** A track without artists at position `k` of page `n`, after well-formed items, is the first malformed item. */
  lemma MalformedInPage(items: seq<Item>, n: nat, k: nat)
    requires PAGE_LIMIT * n <= |items| && k < |Page(items, PAGE_LIMIT * n)|
    requires WellFormed(items[..PAGE_LIMIT * n])
    requires Malformed(Page(items, PAGE_LIMIT * n)[k]) && WellFormed(Page(items, PAGE_LIMIT * n)[..k])
    ensures !WellFormed(items)
    ensures forall j :: 0 <= j < |items| && Malformed(items[j]) && WellFormed(items[..j]) ==> j / PAGE_LIMIT == n
  {
    var offset := PAGE_LIMIT * n;
    var page := Page(items, offset);
    var bad := offset + k;
    assert page == items[offset..offset + |page|];
    assert items[bad] == page[k];
    assert page[..k] == items[offset..bad];
    assert items[..bad] == items[..offset] + items[offset..bad];
    forall j | 0 <= j < |items| && Malformed(items[j]) && WellFormed(items[..j])
      ensures j == bad
    {
      FirstMalformedUnique(items, j, bad);
    }
  }

  /** A short page `n` is the rest of the playlist, and `n` is `|items| / 100`. */
  lemma LastPage(items: seq<Item>, n: nat)
    requires PAGE_LIMIT * n <= |items| && |Page(items, PAGE_LIMIT * n)| < PAGE_LIMIT
    ensures items[..PAGE_LIMIT * n] + Page(items, PAGE_LIMIT * n) == items
    ensures |items| / PAGE_LIMIT == n
  {
    var offset := PAGE_LIMIT * n;
    assert items[..offset] + items[offset..] == items;
  }

  /** A full page carries the prefix read so far on to the next page boundary. */
  lemma NextPage(items: seq<Item>, offset: nat)
    requires offset + PAGE_LIMIT <= |items|
    ensures items[..offset] + Page(items, offset) == items[..offset + PAGE_LIMIT]
  {
  }

  /**
   * The body of the `for track_item in results['items']` loop over one page: appends the entry of
   * each present track to `tracks`, and stops at the first track without artists (reported as its
   * position in the page).
   */
  method AppendPage(tracks: seq<string>, page: seq<Item>) returns (extended: seq<string>, failedAt: Option<nat>)
    ensures failedAt.None? <==> WellFormed(page)
    ensures failedAt.None? ==> extended == tracks + Entries(page)
    ensures failedAt.Some? ==>
      failedAt.value < |page| && Malformed(page[failedAt.value]) && WellFormed(page[..failedAt.value])
  {
    extended := tracks;
    for i := 0 to |page|
      invariant WellFormed(page[..i])
      invariant extended == tracks + Entries(page[..i])
    {
      assert page[..i + 1][..i] == page[..i];
      match page[i]
      case None =>
      case Some(track) =>
        if track.artists == [] {
          return extended, Some(i);
        }
        extended := extended + [SongEntry(track)];
    }
    assert page[..|page|] == page;
    failedAt := None;
  }

  /**
   * The `while True` loop: pages are requested at offsets 0, 100, ... until the first short
   * page, and the tracks are the entries of all items; a track without artists ends the loop
   * (the `IndexError` that fails the load) in the page that holds it.
   */
  method FetchTracks(items: seq<Item>) returns (tracks: Option<seq<string>>, requests: seq<PageRequest>)
    ensures WellFormed(items) ==>
      tracks == Some(Entries(items)) && requests == Requests(|items| / PAGE_LIMIT + 1)
    ensures forall j :: 0 <= j < |items| && Malformed(items[j]) && WellFormed(items[..j]) ==>
      tracks == None && requests == Requests(j / PAGE_LIMIT + 1)
  {
    var collected: seq<string> := [];
    var offset: nat := 0;
    ghost var n: nat := 0;  // requests made so far
    requests := [];
    while true
      invariant offset == PAGE_LIMIT * n && offset <= |items|
      invariant WellFormed(items[..offset])
      invariant collected == Entries(items[..offset])
      invariant requests == Requests(n)
      decreases |items| - offset
    {
      var page := Page(items, offset);
      requests := requests + [PageRequest(offset, PAGE_LIMIT)];
      RequestsNext(n);
      var failedAt;
      collected, failedAt := AppendPage(collected, page);
      if failedAt.Some? {
        MalformedInPage(items, n, failedAt.value);
        return None, requests;
      }
      EntriesAppend(items[..offset], page);
      if |page| < PAGE_LIMIT {
        LastPage(items, n);
        break;
      }
      NextPage(items, offset);
      offset, n := offset + PAGE_LIMIT, n + 1;
    }
    tracks := Some(collected);
  }

  /** `PlaylistLoader`: the API client it was given and the URL typed by the user. */
  class PlaylistLoader {
    const catalog: map<string, Playlist>
    const playlistUrl: string

    constructor (sp: map<string, Playlist>, url: string)
      ensures catalog == sp && playlistUrl == url
    {
      catalog, playlistUrl := sp, url;
    }

    /**
     * `run`: the result it signals (`playlist_loaded` or `error`) and the page requests it makes.
     * A URL without an identifier and an unknown playlist fail before any page is requested.
     */
    method Run() returns (result: LoadResult, requests: seq<PageRequest>)
      ensures ExtractPlaylistId(playlistUrl).None? ==> result == Failed(InvalidUrl) && requests == []
      ensures ExtractPlaylistId(playlistUrl).Some? && ExtractPlaylistId(playlistUrl).value !in catalog ==>
        result == Failed(PlaylistNotFound) && requests == []
      ensures ExtractPlaylistId(playlistUrl).Some? && ExtractPlaylistId(playlistUrl).value in catalog ==>
        var playlist := catalog[ExtractPlaylistId(playlistUrl).value];
        (WellFormed(playlist.items) ==>
          result == Loaded(Entries(playlist.items), playlist.name) &&
          requests == Requests(|playlist.items| / PAGE_LIMIT + 1)) &&
        (forall j :: 0 <= j < |playlist.items| && Malformed(playlist.items[j]) && WellFormed(playlist.items[..j]) ==>
          result == Failed(MissingArtist) && requests == Requests(j / PAGE_LIMIT + 1))
    {
      var found := ExtractPlaylistId(playlistUrl);
      if found.None? {
        return Failed(InvalidUrl), [];
      }
      var playlistId := found.value;
      if playlistId !in catalog {
        return Failed(PlaylistNotFound), [];
      }
      var playlist := catalog[playlistId];
      var tracks;
      tracks, requests := FetchTracks(playlist.items);
      result := if tracks.Some? then Loaded(tracks.value, playlist.name) else Failed(MissingArtist);
    }
  }
}
