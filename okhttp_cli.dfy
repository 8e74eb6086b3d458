/**
 * The request-encoding helpers of OkHttpCli: the Maps utilities that turn a
 * map of parameters into "key=value&key=value" text, the Media table that says
 * which of them packs a request body, and the choice of target URL in Req.get.
 *
 * A Java Map<String, String> is modelled by the sequence of its entries in
 * the map's iteration order; a Map has distinct keys (DistinctKeys).
 * URLEncoder.encode for one charset is a parameter of type UrlEncoder, which
 * answers None where Java throws UnsupportedEncodingException; for the UTF-8
 * charset it is pinned down by FormEncoding.FormEncodeUtf8.
 */
module OkHttpCli {
  import opened Text
  import opened FormEncoding

  type Entry = (string, string)

  type UrlEncoder = string -> Option<string>

  predicate DistinctKeys(m: seq<Entry>)
  {
    forall i, j :: 0 <= i < j < |m| ==> m[i].0 != m[j].0
  }

  function KeysOf(m: seq<Entry>): seq<string>
  {
    seq(|m|, i requires 0 <= i < |m| => m[i].0)
  }

  // ---------------------------------------------------------------------------
  // Maps.toUrl
  // ---------------------------------------------------------------------------

  function Pair(e: Entry): string
  {
    e.0 + "=" + e.1
  }

  function Pairs(m: seq<Entry>): seq<string>
  {
    seq(|m|, i requires 0 <= i < |m| => Pair(m[i]))
  }

  /**
   * Maps.toUrl: the "key=value" pieces of the entries, in iteration order,
   * joined with '&'. Only the empty map gives the empty string.
   */
  function ToUrl(m: seq<Entry>): (r: string)
    ensures r == "" <==> m == []
  {
    if m == [] then ""
    else
      JoinNonEmpty(Pairs(m), "&");
      Join(Pairs(m), "&")
  }

  /** Entries that a query string can carry without ambiguity. */
  predicate QuerySafe(m: seq<Entry>)
  {
    forall i :: 0 <= i < |m| ==> '&' !in m[i].0 && '=' !in m[i].0 && '&' !in m[i].1
  }

  /** Reads one "key=value" piece back, cutting at its first '='. */
  function ParsePair(p: string): Entry
  {
    if '=' in p then
      var i := IndexOf(p, '=');
      (p[..i], p[i + 1..])
    else (p, "")
  }

  /** Reads a query string back into its entries. */
  function ParseQuery(s: string): seq<Entry>
  {
    if s == "" then []
    else
      var pieces := Split(s, '&');
      seq(|pieces|, i requires 0 <= i < |pieces| => ParsePair(pieces[i]))
  }

  lemma ParsePairOfPair(e: Entry)
    requires '=' !in e.0
    ensures ParsePair(Pair(e)) == e
  {
    var p := Pair(e);
    assert p == e.0 + ['='] + e.1;
    assert p[|e.0|] == '=';
    IndexOfAfter(e.0, '=', e.1);
    var i := IndexOf(p, '=');
    assert p[..i] == e.0;
    assert p[i + 1..] == e.1;
  }

  /**
   * toUrl loses nothing: the query string it builds reads back as the same
   * entries, in the same order, one "key=value" piece per entry.
   */
  lemma ToUrlRoundTrip(m: seq<Entry>)
    requires QuerySafe(m)
    ensures ParseQuery(ToUrl(m)) == m
  {
    if m != [] {
      var pieces := Pairs(m);
      forall k | 0 <= k < |pieces|
        ensures '&' !in pieces[k]
      {
        assert pieces[k] == m[k].0 + "=" + m[k].1;
      }
      SplitJoin(pieces, '&');
      forall k | 0 <= k < |m|
        ensures ParsePair(pieces[k]) == m[k]
      {
        ParsePairOfPair(m[k]);
      }
    }
  }

  /** n entries give n - 1 separators. */
  lemma ToUrlSeparators(m: seq<Entry>)
    requires m != []
    requires forall i :: 0 <= i < |m| ==> '&' !in m[i].0 && '&' !in m[i].1
    ensures Count(ToUrl(m), '&') == |m| - 1
  {
    var pieces := Pairs(m);
    forall k | 0 <= k < |pieces|
      ensures '&' !in pieces[k]
    {
      assert pieces[k] == m[k].0 + "=" + m[k].1;
    }
    JoinSeparatorCount(pieces, '&');
  }

  // ---------------------------------------------------------------------------
  // Maps.sort
  // ---------------------------------------------------------------------------

  /**
   * String.compareTo(a, b) < 0: the first differing character decides, and a
   * proper prefix comes first.
   */
  predicate KeyLess(a: string, b: string)
    decreases |a|
  {
    if a == [] then b != []
    else if b == [] then false
    else if a[0] != b[0] then a[0] < b[0]
    else KeyLess(a[1..], b[1..])
  }

  lemma {:induction false} KeyLessIrreflexive(a: string)
    ensures !KeyLess(a, a)
    decreases |a|
  {
    if a != [] {
      KeyLessIrreflexive(a[1..]);
    }
  }

  lemma {:induction false} KeyLessTransitive(a: string, b: string, c: string)
    requires KeyLess(a, b) && KeyLess(b, c)
    ensures KeyLess(a, c)
    decreases |a|
  {
    if a != [] && b != [] && c != [] && a[0] == b[0] == c[0] {
      KeyLessTransitive(a[1..], b[1..], c[1..]);
    }
  }

  lemma {:induction false} KeyLessTotal(a: string, b: string)
    requires a != b
    ensures KeyLess(a, b) || KeyLess(b, a)
    decreases |a|
  {
    if a != [] && b != [] && a[0] == b[0] {
      assert a == [a[0]] + a[1..] && b == [b[0]] + b[1..];
      KeyLessTotal(a[1..], b[1..]);
    }
  }

  /** Ascending by key, equal keys allowed. */
  predicate SortedByKey(m: seq<Entry>)
  {
    forall i, j :: 0 <= i < j < |m| ==> !KeyLess(m[j].0, m[i].0)
  }

  /** Strictly ascending by key. */
  predicate StrictlyAscending(m: seq<Entry>)
  {
    forall i, j :: 0 <= i < j < |m| ==> KeyLess(m[i].0, m[j].0)
  }

  /** Inserts `e` before the first entry whose key is greater (stable). */
  function Insert(e: Entry, s: seq<Entry>): (r: seq<Entry>)
    ensures multiset(r) == multiset(s) + multiset{e}
    ensures |r| == |s| + 1
    ensures forall x :: x in r <==> x == e || x in s
  {
    if s == [] || KeyLess(e.0, s[0].0) then [e] + s
    else
      assert s == [s[0]] + s[1..];
      [s[0]] + Insert(e, s[1..])
  }

  /**
   * The library sort that Stream.sorted(Entry.comparingByKey()) performs: a
   * stable sort by key, as an insertion sort. The result is a permutation of
   * the input.
   */
  function SortByKey(m: seq<Entry>): (r: seq<Entry>)
    ensures multiset(r) == multiset(m)
    ensures |r| == |m|
  {
    if m == [] then []
    else
      assert m == m[..|m| - 1] + [m[|m| - 1]];
      Insert(m[|m| - 1], SortByKey(m[..|m| - 1]))
  }

  lemma {:induction false} InsertSorted(e: Entry, s: seq<Entry>)
    requires SortedByKey(s)
    ensures SortedByKey(Insert(e, s))
  {
    var r := Insert(e, s);
    if s == [] || KeyLess(e.0, s[0].0) {
      forall j | 1 <= j < |r|
        ensures !KeyLess(r[j].0, r[0].0)
      {
        assert r[j] == s[j - 1];
        if KeyLess(s[j - 1].0, e.0) {
          KeyLessTransitive(s[j - 1].0, e.0, s[0].0);
          if j - 1 == 0 {
            KeyLessIrreflexive(s[0].0);
          }
        }
      }
    } else {
      InsertSorted(e, s[1..]);
      var tail := Insert(e, s[1..]);
      forall j | 1 <= j < |r|
        ensures !KeyLess(r[j].0, r[0].0)
      {
        assert r[j] == tail[j - 1];
        assert tail[j - 1] in tail;
        if tail[j - 1] != e {
          var k :| 0 <= k < |s[1..]| && s[1..][k] == tail[j - 1];
          assert s[k + 1] == tail[j - 1];
        }
      }
    }
  }

  lemma {:induction false} InsertDistinct(e: Entry, s: seq<Entry>)
    requires DistinctKeys(s)
    requires forall x :: x in s ==> x.0 != e.0
    ensures DistinctKeys(Insert(e, s))
  {
    if !(s == [] || KeyLess(e.0, s[0].0)) {
      InsertDistinct(e, s[1..]);
      var r, tail := Insert(e, s), Insert(e, s[1..]);
      forall j | 1 <= j < |r|
        ensures r[0].0 != r[j].0
      {
        assert r[j] == tail[j - 1];
        assert tail[j - 1] in tail;
        if tail[j - 1] != e {
          var k :| 0 <= k < |s[1..]| && s[1..][k] == tail[j - 1];
          assert s[k + 1] == tail[j - 1];
        }
      }
    }
  }

  /** The sort orders by key. */
  lemma {:induction false} SortByKeySorted(m: seq<Entry>)
    ensures SortedByKey(SortByKey(m))
  {
    if m != [] {
      SortByKeySorted(m[..|m| - 1]);
      InsertSorted(m[|m| - 1], SortByKey(m[..|m| - 1]));
    }
  }

  /** The sort keeps a map a map: keys stay distinct. */
  lemma {:induction false} SortByKeyDistinct(m: seq<Entry>)
    requires DistinctKeys(m)
    ensures DistinctKeys(SortByKey(m))
  {
    if m != [] {
      var init, last := m[..|m| - 1], m[|m| - 1];
      SortByKeyDistinct(init);
      forall x | x in SortByKey(init)
        ensures x.0 != last.0
      {
        assert x in multiset(SortByKey(init));
        assert x in init;
      }
      InsertDistinct(last, SortByKey(init));
    }
  }

  /** Sorted distinct keys are strictly ascending. */
  lemma SortedDistinctAscending(m: seq<Entry>)
    requires SortedByKey(m) && DistinctKeys(m)
    ensures StrictlyAscending(m)
  {
    forall i, j | 0 <= i < j < |m|
      ensures KeyLess(m[i].0, m[j].0)
    {
      KeyLessTotal(m[i].0, m[j].0);
    }
  }

  lemma {:induction false} InsertAtEnd(e: Entry, s: seq<Entry>)
    requires forall i :: 0 <= i < |s| ==> !KeyLess(e.0, s[i].0)
    ensures Insert(e, s) == s + [e]
  {
    if s != [] {
      InsertAtEnd(e, s[1..]);
      assert [s[0]] + (s[1..] + [e]) == s + [e];
    }
  }

  /** Sorting an already sorted map gives back the same order. */
  lemma {:induction false} SortByKeyOfSorted(m: seq<Entry>)
    requires SortedByKey(m)
    ensures SortByKey(m) == m
  {
    if m != [] {
      var init := m[..|m| - 1];
      SortByKeyOfSorted(init);
      InsertAtEnd(m[|m| - 1], init);
      assert init + [m[|m| - 1]] == m;
    }
  }

  /**
   * LinkedHashMap.put: a new key goes at the end of the iteration order; an
   * existing key keeps its place and gets the new value.
   */
  function Put(m: seq<Entry>, k: string, v: string): (r: seq<Entry>)
    ensures (forall i :: 0 <= i < |m| ==> m[i].0 != k) ==> r == m + [(k, v)]
    ensures forall i :: 0 <= i < |m| && m[i].0 == k && DistinctKeys(m) ==> r == m[i := (k, v)]
  {
    if m == [] then [(k, v)]
    else if m[0].0 == k then [(k, v)] + m[1..]
    else [m[0]] + Put(m[1..], k, v)
  }

  /**
   * Maps.sort: a fresh LinkedHashMap filled, in sorted order, from the sorted
   * entry stream. It holds exactly the input's entries, in strictly
   * ascending key order; the input is a value and is not changed.
   */
  method Sort(m: seq<Entry>) returns (sortMap: seq<Entry>)
    requires DistinctKeys(m)
    ensures sortMap == SortByKey(m)
    ensures multiset(sortMap) == multiset(m)
    ensures StrictlyAscending(sortMap)
  {
    var ordered := SortByKey(m);
    SortByKeyDistinct(m);
    sortMap := [];
    for i := 0 to |ordered|
      invariant sortMap == ordered[..i]
    {
      assert forall j :: 0 <= j < |sortMap| ==> sortMap[j].0 != ordered[i].0;
      sortMap := Put(sortMap, ordered[i].0, ordered[i].1);
      assert ordered[..i + 1] == ordered[..i] + [ordered[i]];
    }
    assert ordered[..|ordered|] == ordered;
    SortByKeySorted(m);
    SortedDistinctAscending(sortMap);
  }

  // ---------------------------------------------------------------------------
  // Maps.encoder
  // ---------------------------------------------------------------------------

  /** The entry with its value encoded, or unchanged where encoding throws. */
  function EncodeValue(e: Entry, encode: UrlEncoder): Entry
  {
    match encode(e.1)
    case Some(v) => (e.0, v)
    case None => e
  }

  function EncodeValues(m: seq<Entry>, encode: UrlEncoder): seq<Entry>
  {
    seq(|m|, i requires 0 <= i < |m| => EncodeValue(m[i], encode))
  }

  /**
   * Encoding values keeps the keys, their order and the entry count, so a
   * map stays a map.
   */
  lemma EncodeValuesKeepsKeys(m: seq<Entry>, encode: UrlEncoder)
    ensures KeysOf(EncodeValues(m, encode)) == KeysOf(m)
    ensures DistinctKeys(m) ==> DistinctKeys(EncodeValues(m, encode))
  {
    var r := EncodeValues(m, encode);
    assert forall i :: 0 <= i < |m| ==> r[i].0 == m[i].0;
  }

  /** A Java Map<String, String> that is changed in place. */
  class StringMap {
    var entries: seq<Entry>

    constructor (entries: seq<Entry>)
      ensures this.entries == entries
    {
      this.entries := entries;
    }
  }

  /**
   * Maps.encoder: replaces each value by its encoding, in place, through the
   * entry set; a value whose encoding throws is left as it is.
   */
  method Encoder(content: StringMap, encode: UrlEncoder)
    modifies content
    ensures content.entries == EncodeValues(old(content.entries), encode)
  {
    ghost var original := content.entries;
    var i := 0;
    while i < |content.entries|
      invariant |content.entries| == |original|
      invariant 0 <= i <= |original|
      invariant forall k :: 0 <= k < i ==> content.entries[k] == EncodeValue(original[k], encode)
      invariant forall k :: i <= k < |original| ==> content.entries[k] == original[k]
    {
      var entry := content.entries[i];
      match encode(entry.1) {
        case Some(v) =>
          content.entries := content.entries[i := (entry.0, v)];
        case None =>
      }
      i := i + 1;
    }
    assert forall k :: 0 <= k < |original| ==> content.entries[k] == EncodeValues(original, encode)[k];
  }

  // ---------------------------------------------------------------------------
  // Maps.toEncoderUrlUtf8
  // ---------------------------------------------------------------------------

  predicate EncodesAll(m: seq<Entry>, encode: UrlEncoder)
  {
    forall i :: 0 <= i < |m| ==> encode(m[i].1).Some?
  }

  /**
   * What toEncoderUrlUtf8 returns: toUrl of the map with every value
   * encoded and every key raw, or "" as soon as one value fails to encode.
   */
  function EncodedQuery(m: seq<Entry>, encode: UrlEncoder): string
  {
    if EncodesAll(m, encode) then ToUrl(EncodeValues(m, encode)) else ""
  }

  /** URLEncoder.encode(s, "UTF-8"), which always succeeds. */
  function Utf8Encoder(s: string): Option<string>
  {
    Some(FormEncodeUtf8(s))
  }

  /**
   * Maps.toEncoderUrlUtf8: a StringJoiner on '&' collects key + "=" +
   * encode(value) entry by entry, and the method returns "" at the first
   * value that fails to encode.
   */
  method ToEncoderUrlUtf8(requestParam: seq<Entry>, encode: UrlEncoder) returns (r: string)
    ensures r == EncodedQuery(requestParam, encode)
  {
    var joiner: seq<string> := [];
    for i := 0 to |requestParam|
      invariant EncodesAll(requestParam[..i], encode)
      invariant joiner == Pairs(EncodeValues(requestParam[..i], encode))
    {
      var v := requestParam[i];
      var s: string;
      match encode(v.1) {
        case None =>
          assert !EncodesAll(requestParam, encode);
          return "";
        case Some(e) =>
          s := v.0 + "=" + e;
      }
      joiner := joiner + [s];
      assert requestParam[..i + 1] == requestParam[..i] + [v];
    }
    assert requestParam[..|requestParam|] == requestParam;
    r := if joiner == [] then "" else Join(joiner, "&");
  }

  /**
   * With the UTF-8 encoder the query never fails, and it reads back as the
   * raw keys with the encoded values: encoding cannot add a separator.
   */
  lemma EncodedQueryUtf8RoundTrip(m: seq<Entry>)
    requires forall i :: 0 <= i < |m| ==> '&' !in m[i].0 && '=' !in m[i].0
    ensures EncodedQuery(m, Utf8Encoder) == ToUrl(EncodeValues(m, Utf8Encoder))
    ensures ParseQuery(EncodedQuery(m, Utf8Encoder)) == EncodeValues(m, Utf8Encoder)
  {
    var r := EncodeValues(m, Utf8Encoder);
    assert forall i :: 0 <= i < |m| ==> r[i] == (m[i].0, FormEncodeUtf8(m[i].1));
    ToUrlRoundTrip(r);
  }

  // ---------------------------------------------------------------------------
  // Media
  // ---------------------------------------------------------------------------

  datatype Media = JsonUtf8 | UrlUtf8 | StrUtf8 | UrlGbk | UrlGb2312

  /** The Content-Type each medium declares. */
  function MediaType(media: Media): string
  {
    match media
    case JsonUtf8 => "application/json; charset=utf-8"
    case UrlUtf8 => "application/x-www-form-urlencoded; charset=utf-8"
    case StrUtf8 => "application/x-www-form-urlencoded; charset=utf-8"
    case UrlGbk => "application/x-www-form-urlencoded; charset=gbk"
    case UrlGb2312 => "application/x-www-form-urlencoded; charset=gb2312"
  }

  /** The Package each medium packs a map with. */
  datatype Packer = JsonString | ToUrlPacker | EncodedUtf8Packer

  function PackerOf(media: Media): Packer
  {
    match media
    case JsonUtf8 => JsonString
    case UrlUtf8 => ToUrlPacker
    case StrUtf8 => EncodedUtf8Packer
    case UrlGbk => ToUrlPacker
    case UrlGb2312 => ToUrlPacker
  }

  predicate IsForm(media: Media)
  {
    media != JsonUtf8
  }

  /**
   * Media.getContent: the body the medium's packer makes of the map. The
   * JSON serialiser is outside the model and is passed in as `toJson`.
   */
  function GetContent(media: Media, content: seq<Entry>, toJson: seq<Entry> -> string): string
  {
    match PackerOf(media)
    case JsonString => toJson(content)
    case ToUrlPacker => ToUrl(content)
    case EncodedUtf8Packer => EncodedQuery(content, Utf8Encoder)
  }

  /**
   * The form media declare a form-urlencoded Content-Type, and their bodies
   * never come from the JSON serialiser. The three URL_* media pack
   * identically, whatever charset they declare: toUrl does no charset
   * encoding at all.
   */
  lemma FormMediaBodies(content: seq<Entry>, toJson: seq<Entry> -> string, otherJson: seq<Entry> -> string)
    ensures forall media :: IsForm(media) ==>
      MediaType(media)[..33] == "application/x-www-form-urlencoded"
      && GetContent(media, content, toJson) == GetContent(media, content, otherJson)
    ensures GetContent(UrlGbk, content, toJson) == GetContent(UrlUtf8, content, toJson)
    ensures GetContent(UrlGb2312, content, toJson) == GetContent(UrlUtf8, content, toJson)
    ensures MediaType(UrlGbk) != MediaType(UrlUtf8) && MediaType(UrlGb2312) != MediaType(UrlUtf8)
  {
    forall media | IsForm(media)
      ensures MediaType(media)[..33] == "application/x-www-form-urlencoded"
    {
      match media
      case UrlUtf8 =>
      case StrUtf8 =>
      case UrlGbk =>
      case UrlGb2312 =>
    }
    assert MediaType(UrlGbk)[43..] == "gbk";
    assert MediaType(UrlGb2312)[43..] == "gb2312";
    assert MediaType(UrlUtf8)[43..] == "utf-8";
  }

  /**
   * JSON_UTF8 declares a JSON Content-Type and its body is the serialiser's
   * text of the map, whatever the map holds.
   */
  lemma JsonMediaBody(content: seq<Entry>, toJson: seq<Entry> -> string)
    ensures MediaType(JsonUtf8)[..16] == "application/json" && !IsForm(JsonUtf8)
    ensures GetContent(JsonUtf8, content, toJson) == toJson(content)
  {
  }

  /**
   * Every form body reads back as the entries: raw for the URL_* media,
   * with UTF-8-encoded values for STR_UTF8. Keys must hold no '&' and no
   * '='; raw values no '&', while STR_UTF8 values may hold anything, since
   * the encoding escapes '&'.
   */
  lemma FormBodiesReadBack(media: Media, content: seq<Entry>, toJson: seq<Entry> -> string)
    requires IsForm(media)
    requires forall i :: 0 <= i < |content| ==> '&' !in content[i].0 && '=' !in content[i].0
    requires media != StrUtf8 ==> QuerySafe(content)
    ensures ParseQuery(GetContent(media, content, toJson))
         == if media == StrUtf8 then EncodeValues(content, Utf8Encoder) else content
  {
    if media == StrUtf8 {
      EncodedQueryUtf8RoundTrip(content);
    } else {
      ToUrlRoundTrip(content);
    }
  }

  // ---------------------------------------------------------------------------
  // Req.get
  // ---------------------------------------------------------------------------

  /**
   * The URL Req.get requests: the bare URL for a null (None) or empty map,
   * otherwise the URL, '?' and the map's toUrl.
   */
  function GetUrl(url: string, params: Option<seq<Entry>>): (target: string)
    ensures target == url <==> params.None? || params.value == []
    ensures target != url ==> |target| > |url| + 1 && target[..|url|] == url && target[|url|] == '?'
  {
    if params.None? || |params.value| == 0 then url
    else url + "?" + ToUrl(params.value)
  }

  /** What follows the '?' in a target with parameters reads back as them. */
  lemma GetUrlQuery(url: string, params: seq<Entry>)
    requires params != [] && QuerySafe(params)
    ensures ParseQuery(GetUrl(url, Some(params))[|url| + 1..]) == params
  {
    var target := GetUrl(url, Some(params));
    assert target[|url| + 1..] == ToUrl(params);
    ToUrlRoundTrip(params);
  }
}
