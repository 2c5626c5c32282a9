/** The episode lookup of `fetchEpisode` in main.go, over a feed that has
    already been retrieved and decoded. */
module Feed {
  import opened Wrappers

  /** One `<item>` of the feed as the decoder fills it in. */
  datatype Item = Item(
    title: string,             // <title>
    number: int,               // <order>
    guid: string,              // <guid>
    summary: string,           // <summary>
    enclosureUrl: string,      // url attribute of <enclosure>
    categories: seq<string>)   // every <category>

  /** One `<channel>` of the feed. */
  datatype Channel = Channel(items: seq<Item>)

  /** The episode record that the rest of the program works with. */
  datatype Episode = Episode(
    title: string,
    number: int,
    link: string,
    desc: string,
    mp3: string,
    tags: seq<string>)

  /** The outcome of retrieving and decoding the feed: either step can fail. */
  datatype FeedSource =
    | Unreachable                       // http.Get failed
    | Malformed                         // the XML decoder failed
    | Decoded(channels: seq<Channel>)

  datatype FetchError =
    | GetFailed(url: string)   // "could not get <url>: ..."
    | DecodeFailed             // "could not decode feed: ..."
    | NotFound(number: int)    // "could not find episode <number>"

  /** The fields an episode takes from an item. */
  function ToEpisode(i: Item): Episode
  {
    Episode(i.title, i.number, i.guid, i.summary, i.enclosureUrl, i.categories)
  }

  /** The first item in `items` whose number is `number`, as an episode. */
  function FindEpisode(items: seq<Item>, number: int): Result<Episode, FetchError>
    decreases |items|
  {
    if items == [] then Err(NotFound(number))
    else if items[0].number == number then Ok(ToEpisode(items[0]))
    else FindEpisode(items[1..], number)
  }

  /** `fetchEpisode` after the feed is decoded: the scan of the first channel.
      The source indexes `data.Channel[0]` without a check, so a feed without
      a channel is excluded here. */
  method SelectEpisode(channels: seq<Channel>, number: int) returns (r: Result<Episode, FetchError>)
    requires |channels| > 0
    ensures r == FindEpisode(channels[0].items, number)
  {
    var items := channels[0].items;
    var k := 0;
    while k < |items|
      invariant 0 <= k <= |items|
      invariant FindEpisode(items[k..], number) == FindEpisode(items, number)
    {
      assert items[k..][1..] == items[k + 1..];
      var i := items[k];
      if i.number == number {
        return Ok(Episode(i.title, i.number, i.guid, i.summary, i.enclosureUrl, i.categories));
      }
      k := k + 1;
    }
    return Err(NotFound(number));
  }

  /** The whole of `fetchEpisode`, with retrieval and decoding given as `src`. */
  function FetchEpisode(url: string, src: FeedSource, number: int): Result<Episode, FetchError>
    requires src.Decoded? ==> |src.channels| > 0
  {
    match src
    case Unreachable => Err(GetFailed(url))
    case Malformed => Err(DecodeFailed)
    case Decoded(channels) => FindEpisode(channels[0].items, number)
  }

  // ---------------------------------------------------------------------
  // What the lookup returns

  /** Position `k` holds the first item of `items` numbered `number`. */
  predicate FirstMatchAt(items: seq<Item>, number: int, k: int)
  {
    0 <= k < |items| && items[k].number == number &&
    forall j :: 0 <= j < k ==> items[j].number != number
  }

  /** A successful lookup returns the first item with the requested number,
      every field copied unchanged. */
  lemma {:induction false} FindEpisodeFirstMatch(items: seq<Item>, number: int)
    requires FindEpisode(items, number).Ok?
    ensures exists k :: FirstMatchAt(items, number, k) && FindEpisode(items, number).value == ToEpisode(items[k])
    decreases |items|
  {
    if items[0].number != number {
      FindEpisodeFirstMatch(items[1..], number);
      var k :| FirstMatchAt(items[1..], number, k) && FindEpisode(items[1..], number).value == ToEpisode(items[1..][k]);
      assert items[k + 1] == items[1..][k];
      assert forall j :: 1 <= j < k + 1 ==> items[j] == items[1..][j - 1];
      assert FirstMatchAt(items, number, k + 1);
    } else {
      assert FirstMatchAt(items, number, 0);
    }
  }

  /** The lookup fails exactly when no item has the requested number, and
      then the error names that number. */
  lemma {:induction false} FindEpisodeNotFound(items: seq<Item>, number: int)
    ensures FindEpisode(items, number).Err? <==> forall j :: 0 <= j < |items| ==> items[j].number != number
    ensures FindEpisode(items, number).Err? ==> FindEpisode(items, number).error == NotFound(number)
    decreases |items|
  {
    if items != [] {
      FindEpisodeNotFound(items[1..], number);
      assert forall j :: 1 <= j < |items| ==> items[j] == items[1..][j - 1];
    }
  }

  /** The episode found carries the requested number. */
  lemma FindEpisodeNumber(items: seq<Item>, number: int)
    requires FindEpisode(items, number).Ok?
    ensures FindEpisode(items, number).value.number == number
  {
    FindEpisodeFirstMatch(items, number);
  }

  /** When numbers are unique in the channel, as a feed's ordinals are, the
      lookup returns THE item with that number. */
  lemma FindEpisodeUnique(items: seq<Item>, number: int, k: nat)
    requires forall i, j :: 0 <= i < j < |items| ==> items[i].number != items[j].number
    requires k < |items| && items[k].number == number
    ensures FindEpisode(items, number) == Ok(ToEpisode(items[k]))
  {
    FindEpisodeNotFound(items, number);
    FindEpisodeFirstMatch(items, number);
  }

  /** Retrieval and decoding failures come out as their own errors; the
      not-found error appears only for a decoded feed without the number. */
  lemma FetchEpisodeErrors(url: string, src: FeedSource, number: int)
    requires src.Decoded? ==> |src.channels| > 0
    ensures src.Unreachable? ==> FetchEpisode(url, src, number) == Err(GetFailed(url))
    ensures src.Malformed? ==> FetchEpisode(url, src, number) == Err(DecodeFailed)
    ensures FetchEpisode(url, src, number) == Err(NotFound(number)) <==>
      src.Decoded? && forall j :: 0 <= j < |src.channels[0].items| ==> src.channels[0].items[j].number != number
  {
    if src.Decoded? {
      FindEpisodeNotFound(src.channels[0].items, number);
    }
  }
}
