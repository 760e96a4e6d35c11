/**
 * Cache-key construction: the request's path (and query, unless excluded)
 * joined to the negotiated media type with a colon, and the two ways of
 * reading the media type back out of a key.
 */
module CacheKeys {

  const Separator: char := ':'

  /**
   * The parts of a request URI the key uses. `query` is the query string as
   * `Uri.Query` gives it: empty, or starting with '?'.
   */
  datatype RequestUri = RequestUri(absolutePath: string, query: string) {
    /** `Uri.PathAndQuery`. */
    function PathAndQuery(): string {
      absolutePath + query
    }
  }

  /** `char.IsWhiteSpace`: the Unicode space separators plus the line and paragraph separators and U+0009-U+000D, U+0085. */
  predicate IsWhiteSpace(c: char) {
    || ('\U{0009}' <= c <= '\U{000D}') || c == '\U{0020}' || c == '\U{0085}' || c == '\U{00A0}'
    || c == '\U{1680}' || ('\U{2000}' <= c <= '\U{200A}') || c == '\U{2028}' || c == '\U{2029}'
    || c == '\U{202F}' || c == '\U{205F}' || c == '\U{3000}'
  }

  /** `string.IsNullOrWhiteSpace` on a non-null string. */
  predicate IsBlank(s: string) {
    forall i :: 0 <= i < |s| ==> IsWhiteSpace(s[i])
  }

  /** The URI part of the key: path and query, or the path alone when the query is excluded. */
  function KeyUri(excludeQuery: bool, uri: RequestUri): string {
    if excludeQuery then uri.absolutePath else uri.PathAndQuery()
  }

  /** `MakeCachekey`: the URI part and the media type joined by one colon. */
  function MakeCacheKey(excludeQuery: bool, uri: RequestUri, mediaType: string): (key: string)
    ensures |key| == |KeyUri(excludeQuery, uri)| + 1 + |mediaType|
    ensures key[..|KeyUri(excludeQuery, uri)|] == KeyUri(excludeQuery, uri)
    ensures key[|KeyUri(excludeQuery, uri)|] == Separator
    ensures key[|KeyUri(excludeQuery, uri)| + 1..] == mediaType
    ensures Separator in key && !IsBlank(key)
  {
    var u := KeyUri(excludeQuery, uri);
    var key := u + [Separator] + mediaType;
    assert !IsWhiteSpace(key[|u|]);
    key
  }

  /** The key is exactly the URI part, the separator and the media type, in that order. */
  lemma MakeCacheKeyJoins(excludeQuery: bool, uri: RequestUri, mediaType: string)
    ensures MakeCacheKey(excludeQuery, uri, mediaType) == KeyUri(excludeQuery, uri) + [Separator] + mediaType
  {
    var u := KeyUri(excludeQuery, uri);
    var key := MakeCacheKey(excludeQuery, uri, mediaType);
    assert key == key[..|u|] + [key[|u|]] + key[|u| + 1..];
  }

  /** With the query excluded, requests for the same path share a key whatever their queries. */
  lemma ExcludedQueryIsIgnored(path: string, query1: string, query2: string, mediaType: string)
    ensures MakeCacheKey(true, RequestUri(path, query1), mediaType) == MakeCacheKey(true, RequestUri(path, query2), mediaType)
  {
  }

  /** With the query included, requests for the same path and media type share a key exactly when their queries agree. */
  lemma IncludedQueryDistinguishes(path: string, query1: string, query2: string, mediaType: string)
    ensures MakeCacheKey(false, RequestUri(path, query1), mediaType) == MakeCacheKey(false, RequestUri(path, query2), mediaType)
        <==> query1 == query2
  {
    var k1 := MakeCacheKey(false, RequestUri(path, query1), mediaType);
    var k2 := MakeCacheKey(false, RequestUri(path, query2), mediaType);
    if k1 == k2 {
      assert |query1| == |query2|;
      assert query1 == k1[|path|..|path| + |query1|];
      assert query2 == k2[|path|..|path| + |query2|];
    }
  }

  /** The same resource negotiated to two media types occupies two keys. */
  lemma MediaTypeDistinguishes(excludeQuery: bool, uri: RequestUri, mediaType1: string, mediaType2: string)
    ensures MakeCacheKey(excludeQuery, uri, mediaType1) == MakeCacheKey(excludeQuery, uri, mediaType2)
        <==> mediaType1 == mediaType2
  {
  }

  /**
   * The text after the last colon of `s` (all of `s` when it has none): the
   * longest colon-free suffix.
   */
  function AfterLastSeparator(s: string): (r: string)
    ensures Separator !in r
    ensures |r| <= |s| && r == s[|s| - |r|..]
    ensures |r| < |s| ==> s[|s| - |r| - 1] == Separator
  {
    if s == [] then []
    else if s[|s| - 1] == Separator then []
    else AfterLastSeparator(s[..|s| - 1]) + [s[|s| - 1]]
  }

  /** The media type a key was built for, read back as the text after its last colon. */
  function MediaTypeOfKey(key: string): string {
    AfterLastSeparator(key)
  }

  /** Reading the media type back out of a key returns the one it was built with (media types hold no colon). */
  lemma {:induction false} MediaTypeOfKeyInvertsKey(excludeQuery: bool, uri: RequestUri, mediaType: string)
    requires Separator !in mediaType
    ensures MediaTypeOfKey(MakeCacheKey(excludeQuery, uri, mediaType)) == mediaType
  {
    var key := MakeCacheKey(excludeQuery, uri, mediaType);
    var r := AfterLastSeparator(key);
    var n := |key|;
    assert |r| == |mediaType|;
  }

  /** Position of the first occurrence of `c` in `s`, or `|s|` when there is none. */
  function IndexOf(s: string, c: char): (i: nat)
    ensures i <= |s|
    ensures c !in s[..i]
    ensures i < |s| ==> s[i] == c
  {
    if s == [] then 0
    else if s[0] == c then 0
    else 1 + IndexOf(s[1..], c)
  }

  /** A token character of HTTP: visible ASCII other than the separators `()<>@,;:\"/[]?={}`. */
  predicate IsTokenChar(c: char) {
    '!' <= c <= '~' && c !in "()<>@,;:\\\"/[]?={}"
  }

  predicate IsToken(t: string) {
    |t| > 0 && forall i :: 0 <= i < |t| ==> IsTokenChar(t[i])
  }

  /**
   * What `new MediaTypeHeaderValue(s)` accepts without an exception: a
   * token, a slash, a token, and nothing around them. It looks only at the
   * first slash; the ensures says this is the same as "some slash splits
   * `s` into two tokens".
   */
  function IsMediaTypeSyntax(s: string): (ok: bool)
    ensures ok <==> exists j :: 0 <= j < |s| && s[j] == '/' && IsToken(s[..j]) && IsToken(s[j + 1..])
  {
    var i := IndexOf(s, '/');
    SlashAfterTokenIsFirst(s);
    i < |s| && IsToken(s[..i]) && IsToken(s[i + 1..])
  }

  /** A slash preceded by a token is the first slash, since tokens hold none. */
  lemma SlashAfterTokenIsFirst(s: string)
    ensures forall j | 0 <= j < |s| && s[j] == '/' && IsToken(s[..j]) :: IndexOf(s, '/') == j
  {
    forall j | 0 <= j < |s| && s[j] == '/' && IsToken(s[..j])
      ensures IndexOf(s, '/') == j
    {
      assert '/' !in s[..j] by {
        forall k | 0 <= k < j
          ensures s[..j][k] != '/'
        {
          assert IsTokenChar(s[..j][k]);
        }
      }
      IndexOfFirst(s, '/', j);
    }
  }

  /** A well-formed media type holds no colon, so it can be read back from the end of a key. */
  lemma MediaTypeHasNoSeparator(s: string)
    requires IsMediaTypeSyntax(s)
    ensures Separator !in s
  {
    var i := IndexOf(s, '/');
    forall k | 0 <= k < |s|
      ensures s[k] != Separator
    {
      if k < i {
        assert s[k] == s[..i][k];
      } else if k > i {
        assert s[k] == s[i + 1..][k - i - 1];
      }
    }
  }

  /** `IndexOf` finds the first occurrence. */
  lemma {:induction false} IndexOfFirst(s: string, c: char, i: nat)
    requires i < |s| && s[i] == c && c !in s[..i]
    ensures IndexOf(s, c) == i
  {
    if i > 0 {
      assert s[0] == s[..i][0];
      assert s[1..][..i - 1] == s[..i][1..];
      IndexOfFirst(s[1..], c, i - 1);
    }
  }

  /**
   * `cachekey.Split(':')[1]`: the second colon-separated field, i.e. the text
   * from just after the first colon up to the next colon or the end.
   */
  function SecondField(key: string): (r: string)
    requires Separator in key
    ensures Separator !in r
    ensures var rest := key[IndexOf(key, Separator) + 1..];
      && |r| <= |rest|
      && r == rest[..|r|]
      && (|r| == |rest| || rest[|r|] == Separator)
  {
    var rest := key[IndexOf(key, Separator) + 1..];
    rest[..IndexOf(rest, Separator)]
  }

  /** When neither the URI part nor the media type contains a colon, the as-written reading and the corrected one agree. */
  lemma {:induction false} SecondFieldAgreesWithoutColonInUri(excludeQuery: bool, uri: RequestUri, mediaType: string)
    requires Separator !in KeyUri(excludeQuery, uri) && Separator !in mediaType
    ensures SecondField(MakeCacheKey(excludeQuery, uri, mediaType)) == mediaType
    ensures MediaTypeOfKey(MakeCacheKey(excludeQuery, uri, mediaType)) == mediaType
  {
    var u := KeyUri(excludeQuery, uri);
    var key := MakeCacheKey(excludeQuery, uri, mediaType);
    assert key == u + [Separator] + mediaType;
    assert key[..|u|] == u;
    var i := IndexOf(key, Separator);
    assert i == |u|;
    var rest := key[i + 1..];
    assert rest == mediaType;
    assert IndexOf(rest, Separator) == |rest|;
    MediaTypeOfKeyInvertsKey(excludeQuery, uri, mediaType);
  }

  /** On `a:b:c` with colon-free `a` and `b`, the as-written reading yields `b`. */
  lemma {:induction false} SecondFieldOfThreeFields(a: string, b: string, c: string)
    requires Separator !in a && Separator !in b
    ensures SecondField(a + [Separator] + b + [Separator] + c) == b
  {
    var key := a + [Separator] + b + [Separator] + c;
    assert key[..|a|] == a;
    IndexOfFirst(key, Separator, |a|);
    var rest := key[|a| + 1..];
    assert rest == b + [Separator] + c;
    assert rest[..|b|] == b;
    IndexOfFirst(rest, Separator, |b|);
  }

  /**
   * A colon in the query throws the as-written reading off: the field after
   * it is read back in place of the media type.
   */
  lemma {:induction false} SecondFieldOfColonInQuery(path: string, before: string, after: string, mediaType: string)
    requires Separator !in path + before && Separator !in after
    ensures SecondField(MakeCacheKey(false, RequestUri(path, before + [Separator] + after), mediaType)) == after
  {
    var head := path + before;
    MakeCacheKeyJoins(false, RequestUri(path, before + [Separator] + after), mediaType);
    assert MakeCacheKey(false, RequestUri(path, before + [Separator] + after), mediaType)
        == head + [Separator] + after + [Separator] + mediaType;
    SecondFieldOfThreeFields(head, after, mediaType);
  }

  /**
   * For `/teams?at=10:30` negotiated to `application/json` the as-written
   * reading yields `30`, where `MediaTypeOfKeyInvertsKey` gives back
   * `application/json`.
   */
  lemma SecondFieldMisreadsColonInQuery(path: string, query: string, mediaType: string)
    requires path == "/teams" && query == "?at=10:30" && mediaType == "application/json"
    ensures var key := MakeCacheKey(false, RequestUri(path, query), mediaType);
      && SecondField(key) == "30"
      && SecondField(key) != mediaType
  {
    assert query == "?at=10" + [Separator] + "30";
    assert Separator !in path + "?at=10";
    SecondFieldOfColonInQuery(path, "?at=10", "30", mediaType);
  }

  /** Two tokens joined by a slash parse as a media type. */
  lemma MediaTypeOfTokens(kind: string, subtype: string)
    requires IsToken(kind) && IsToken(subtype)
    ensures IsMediaTypeSyntax(kind + "/" + subtype)
  {
    var s := kind + "/" + subtype;
    assert '/' !in s[..|kind|] by {
      assert s[..|kind|] == kind;
    }
    IndexOfFirst(s, '/', |kind|);
    assert s[..|kind|] == kind && s[|kind| + 1..] == subtype;
  }

  /** A colon in the path: the text between it and the key's own separator is read back. */
  lemma {:induction false} SecondFieldOfColonInPath(before: string, after: string, mediaType: string)
    requires Separator !in before && Separator !in after
    ensures SecondField(MakeCacheKey(false, RequestUri(before + [Separator] + after, ""), mediaType)) == after
  {
    var uri := RequestUri(before + [Separator] + after, "");
    assert uri.PathAndQuery() == before + [Separator] + after;
    MakeCacheKeyJoins(false, uri, mediaType);
    SecondFieldOfThreeFields(before, after, mediaType);
  }

  /** `b/c` is two tokens around a slash. */
  lemma SlashTypeParses(t: string)
    requires t == "b/c"
    ensures IsMediaTypeSyntax(t)
  {
    assert t == "b" + "/" + "c";
    MediaTypeOfTokens("b", "c");
  }

  /**
   * A colon in the path can also yield a type that parses: for `/a:b/c`
   * negotiated to `application/json` the as-written reading yields `b/c`.
   */
  lemma SecondFieldMisreadsColonInPath(path: string, query: string, mediaType: string)
    requires path == "/a:b/c" && query == "" && mediaType == "application/json"
    ensures var key := MakeCacheKey(false, RequestUri(path, query), mediaType);
      && SecondField(key) == "b/c"
      && IsMediaTypeSyntax(SecondField(key))
      && SecondField(key) != mediaType
  {
    SlashTypeParses("b/c");
    assert path == "/a" + [Separator] + "b/c";
    SecondFieldOfColonInPath("/a", "b/c", mediaType);
  }
}
