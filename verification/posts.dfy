/** What the two top-post transforms share: the content type, the shape of a top-post card, and
    the ranking `filter(key > 0).sort(by key, highest first).slice(0, limit)`. */
module Posts {
  import opened Lists
  import opened Dates
  import opened Helpers

  /** `'Single Tweet'`, `'Long-form'` or `'Thread'`. */
  datatype ContentType = SingleTweet | LongForm | Thread

  /** The length rule: a text longer than 200 characters is long-form (`csvParser.js`'s
      `detectContentType`, and the fallback of `xApi.js`'s). */
  function LengthType(text: string): (r: ContentType)
    ensures r == LongForm <==> |text| > 200
    ensures r != Thread
  {
    if |text| > 200 then LongForm else SingleTweet
  }

  /** One card of the top-posts list. */
  datatype TopPost = TopPost(
    id: string,
    text: string,
    impressions: int,
    likes: int,
    retweets: int,
    replies: int,
    bookmarks: int,
    date: DateLabel,
    hookType: Hook,
    contentType: ContentType,
    postedAt: string)

  /** The filter that keeps items with a positive key. */
  function Positive<T>(key: T -> int): T -> bool {
    x => key(x) > 0
  }

  /** The ranking both paths apply before building cards. */
  function Rank<T>(s: seq<T>, key: T -> int, limit: int): (r: seq<T>)
    ensures forall i :: 0 <= i < |r| ==> key(r[i]) > 0 && r[i] in s
    ensures SortedDownBy(r, key)
    ensures limit >= 0 ==> |r| <= limit
  {
    RankedKept(s, key);
    SliceTo(SortDownBy(Filter(s, Positive(key)), key), limit)
  }

  /** Sorting the kept items brings in nothing new. */
  lemma RankedKept<T>(s: seq<T>, key: T -> int)
    ensures forall x :: x in SortDownBy(Filter(s, Positive(key)), key) ==> key(x) > 0 && x in s
  {
    var kept := Filter(s, Positive(key));
    var sorted := SortDownBy(kept, key);
    forall x | x in sorted ensures key(x) > 0 && x in s {
      assert x in multiset(kept);
      var i :| 0 <= i < |kept| && kept[i] == x;
      assert Positive(key)(kept[i]);
    }
  }

  /** The ranking keeps as many items as the limit allows: all positive items when there are at
      most `limit` of them, otherwise exactly `limit`. */
  lemma RankLength<T>(s: seq<T>, key: T -> int, limit: int)
    requires limit >= 0
    ensures |Rank(s, key, limit)| == if |Filter(s, Positive(key))| <= limit then |Filter(s, Positive(key))| else limit
  {
    var kept := Filter(s, Positive(key));
    assert |SortDownBy(kept, key)| == |multiset(kept)|;
  }

  /** The ranking picks the best: a positive item that did not make the list has a key no
      greater than any item that did. */
  lemma RankIsTop<T>(s: seq<T>, key: T -> int, limit: int, x: T)
    requires x in s && key(x) > 0 && x !in Rank(s, key, limit)
    ensures forall i :: 0 <= i < |Rank(s, key, limit)| ==> key(x) <= key(Rank(s, key, limit)[i])
  {
    var kept := Filter(s, Positive(key));
    var sorted := SortDownBy(kept, key);
    var r := Rank(s, key, limit);
    assert Positive(key)(x);
    assert x in kept;
    assert x in multiset(sorted);
    var j :| 0 <= j < |sorted| && sorted[j] == x;
    assert r == sorted[..|r|];
    assert j >= |r|;
  }
}
