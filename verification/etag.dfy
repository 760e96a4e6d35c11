/**
 * Entity-tag normalisation (`SetEtag`): every double quote is stripped from
 * the token and the remainder is wrapped in exactly one pair of quotes.
 */
module ETags {

  const Quote: char := '"'

  /** Number of double quotes in `s`. */
  function QuoteCount(s: string): (n: nat)
    ensures n <= |s|
    ensures n == 0 <==> Quote !in s
  {
    if s == [] then 0 else (if s[0] == Quote then 1 else 0) + QuoteCount(s[1..])
  }

  /** `s` with every double quote removed, the other characters kept in order. */
  function RemoveQuotes(s: string): (r: string)
    ensures Quote !in r
    ensures |r| + QuoteCount(s) == |s|
    ensures forall c :: c in r <==> c in s && c != Quote
  {
    if s == [] then []
    else if s[0] == Quote then RemoveQuotes(s[1..])
    else [s[0]] + RemoveQuotes(s[1..])
  }

  /** Removing quotes from quote-free text changes nothing. */
  lemma {:induction false} RemoveQuotesOfQuoteFree(s: string)
    requires Quote !in s
    ensures RemoveQuotes(s) == s
  {
    if s != [] {
      assert Quote !in s[1..];
      RemoveQuotesOfQuoteFree(s[1..]);
    }
  }

  /** A tag as it leaves `SetEtag`: one opening quote, one closing quote, none in between. */
  predicate IsNormalisedTag(t: string) {
    |t| >= 2 && t[0] == Quote && t[|t| - 1] == Quote && Quote !in t[1..|t| - 1]
  }

  /** `SetEtag`: the token with all quotes removed, wrapped in one pair of quotes. */
  function SetEtag(etag: string): (t: string)
    ensures IsNormalisedTag(t)
    ensures t[1..|t| - 1] == RemoveQuotes(etag)
    ensures QuoteCount(t) == 2
  {
    var inner := RemoveQuotes(etag);
    var t := [Quote] + inner + [Quote];
    assert t[1..|t| - 1] == inner;
    QuoteCountAppend([Quote] + inner, [Quote]);
    QuoteCountAppend([Quote], inner);
    t
  }

  lemma {:induction false} QuoteCountAppend(a: string, b: string)
    ensures QuoteCount(a + b) == QuoteCount(a) + QuoteCount(b)
  {
    if a != [] {
      assert (a + b)[1..] == a[1..] + b;
      QuoteCountAppend(a[1..], b);
    } else {
      assert a + b == b;
    }
  }

  /** A tag is left unchanged by `SetEtag` exactly when it is already normalised. */
  lemma {:induction false} SetEtagFixedPoints(t: string)
    ensures SetEtag(t) == t <==> IsNormalisedTag(t)
  {
    if IsNormalisedTag(t) {
      var inner := t[1..|t| - 1];
      assert t[1..] == inner + [Quote];
      RemoveQuotesAppend(inner, [Quote]);
      RemoveQuotesOfChar(Quote);
      RemoveQuotesOfQuoteFree(inner);
      assert RemoveQuotes(t) == inner;
      assert t == [Quote] + inner + [Quote];
    }
  }

  /** On a single character, quote removal drops a quote and keeps anything else. */
  lemma RemoveQuotesOfChar(c: char)
    ensures RemoveQuotes([c]) == if c == Quote then [] else [c]
  {
  }

  /**
   * Quote removal distributes over concatenation; with `RemoveQuotesOfChar`
   * this pins it down as the order-preserving filter that drops every quote.
   */
  lemma {:induction false} RemoveQuotesAppend(a: string, b: string)
    ensures RemoveQuotes(a + b) == RemoveQuotes(a) + RemoveQuotes(b)
  {
    if a != [] {
      assert (a + b)[1..] == a[1..] + b;
      RemoveQuotesAppend(a[1..], b);
    } else {
      assert a + b == b;
    }
  }

  /** Normalising twice is normalising once. */
  lemma SetEtagIdempotent(etag: string)
    ensures SetEtag(SetEtag(etag)) == SetEtag(etag)
  {
    SetEtagFixedPoints(SetEtag(etag));
  }
}
