/** The locator step of `download`: the first match of
    `(track|album|playlist)/([a-zA-Z0-9]*)` in the URL, as `re.finditer`
    finds it. A match starts at the leftmost position where a keyword and a
    slash begin, with no word boundary in front of it, and the id is the
    longest run of ASCII letters and digits after the slash, possibly empty. */
module Locator {
  import opened Wrappers

  datatype Kind = Track | Album | Playlist

  /** The resource kind and the id text of the first match. */
  datatype Locator = Locator(kind: Kind, id: string)

  function Keyword(k: Kind): (w: string)
    ensures |w| >= 5 && '/' !in w
  {
    match k
    case Track => "track"
    case Album => "album"
    case Playlist => "playlist"
  }

  /** `[a-zA-Z0-9]`. */
  predicate IsAlnum(c: char)
  {
    'a' <= c <= 'z' || 'A' <= c <= 'Z' || '0' <= c <= '9'
  }

  /** The keyword of k followed by a slash starts at position i. */
  predicate KeywordAt(url: string, i: nat, k: Kind)
  {
    i + |Keyword(k)| < |url|
    && url[i..i + |Keyword(k)|] == Keyword(k)
    && url[i + |Keyword(k)|] == '/'
  }

  /** The alternation `track|album|playlist`, tried in that order at position i. */
  function KindAt(url: string, i: nat): (r: Option<Kind>)
    ensures r.Some? ==> KeywordAt(url, i, r.value)
  {
    if KeywordAt(url, i, Track) then Some(Track)
    else if KeywordAt(url, i, Album) then Some(Album)
    else if KeywordAt(url, i, Playlist) then Some(Playlist)
    else None
  }

  /** The greedy `[a-zA-Z0-9]*`: the longest alphanumeric prefix of s. */
  function AlnumRun(s: string): (r: string)
    ensures |r| <= |s| && r == s[..|r|]
    ensures forall i :: 0 <= i < |r| ==> IsAlnum(r[i])
    ensures |r| < |s| ==> !IsAlnum(s[|r|])
  {
    if s == [] || !IsAlnum(s[0]) then []
    else [s[0]] + AlnumRun(s[1..])
  }

  /** The match that begins at position i, when one does. */
  predicate MatchAt(url: string, i: nat, loc: Locator)
  {
    KeywordAt(url, i, loc.kind)
    && loc.id == AlnumRun(url[i + |Keyword(loc.kind)| + 1..])
  }

  /** No keyword and slash begins at any position in [i, m). */
  ghost predicate NoKeywordBetween(url: string, i: nat, m: nat)
  {
    forall j :: i <= j < m ==> KindAt(url, j).None?
  }

  /** The regex scan from position i onwards. */
  function Search(url: string, i: nat): Option<Locator>
    requires i <= |url|
    decreases |url| - i
  {
    if i == |url| then None
    else match KindAt(url, i)
      case Some(k) => Some(Locator(k, AlnumRun(url[i + |Keyword(k)| + 1..])))
      case None => Search(url, i + 1)
  }

  /** A position where no keyword begins can be added to the front of a keyword-free stretch. */
  lemma NoKeywordStep(url: string, i: nat, m: nat)
    requires i < m && KindAt(url, i).None?
    ensures NoKeywordBetween(url, i, m) <==> NoKeywordBetween(url, i + 1, m)
  {
  }

  /** The scan from i finds nothing exactly when no keyword begins at or after i. */
  lemma {:induction false} SearchNone(url: string, i: nat)
    requires i <= |url|
    decreases |url| - i
    ensures Search(url, i).None? <==> NoKeywordBetween(url, i, |url|)
  {
    if i < |url| {
      if KindAt(url, i).None? {
        assert Search(url, i) == Search(url, i + 1);
        SearchNone(url, i + 1);
        NoKeywordStep(url, i, |url|);
      } else {
        assert !NoKeywordBetween(url, i, |url|) by { assert KindAt(url, i).Some?; }
      }
    }
  }

  /** Where a keyword begins, the scan stops with the match there. */
  lemma SearchHere(url: string, i: nat)
    requires i < |url| && KindAt(url, i).Some?
    ensures Search(url, i).Some? && MatchAt(url, i, Search(url, i).value)
  {
    var k := KindAt(url, i).value;
    assert Search(url, i) == Some(Locator(k, AlnumRun(url[i + |Keyword(k)| + 1..])));
  }

  /** Otherwise the scan returns the match at the first position at or after
      i where a keyword begins. */
  lemma {:induction false} SearchFindsFirst(url: string, i: nat)
    requires i <= |url|
    decreases |url| - i
    ensures Search(url, i).Some? ==> exists j :: i <= j < |url| && MatchAt(url, j, Search(url, i).value)
                                           && NoKeywordBetween(url, i, j)
  {
    if i < |url| {
      if KindAt(url, i).Some? {
        SearchHere(url, i);
        assert NoKeywordBetween(url, i, i);
      } else {
        var r := Search(url, i + 1);
        assert Search(url, i) == r;
        SearchFindsFirst(url, i + 1);
        if r.Some? {
          var j :| i + 1 <= j < |url| && MatchAt(url, j, r.value) && NoKeywordBetween(url, i + 1, j);
          NoKeywordStep(url, i, j);
        }
      }
    }
  }

  /** `next(REGEX.finditer(url))`; None where `next` raises StopIteration. */
  function Parse(url: string): (r: Option<Locator>)
    ensures r.None? <==> NoKeywordBetween(url, 0, |url|)
    ensures r.Some? ==> exists j :: 0 <= j < |url| && MatchAt(url, j, r.value) && NoKeywordBetween(url, 0, j)
  {
    SearchNone(url, 0);
    SearchFindsFirst(url, 0);
    Search(url, 0)
  }
}

/** What the locator promises. */
module LocatorProperties {
  import opened Wrappers
  import opened Locator

  /** The three keywords begin with different letters, so at most one
      alternative matches at any position and their order does not matter. */
  lemma KeywordsExclusive(url: string, i: nat, k: Kind, k': Kind)
    requires KeywordAt(url, i, k) && KeywordAt(url, i, k')
    ensures k == k'
  {
    assert url[i] == Keyword(k)[0] && url[i] == Keyword(k')[0] by {
      assert url[i..i + |Keyword(k)|][0] == url[i];
      assert url[i..i + |Keyword(k')|][0] == url[i];
    }
  }

  /** The alternation fails only where none of the three keywords begins. */
  lemma KindAtNone(url: string, i: nat)
    ensures KindAt(url, i).None? <==> forall k :: !KeywordAt(url, i, k)
  {
  }

  /** The scan passes over positions where no keyword begins. */
  lemma {:induction false} SearchSkips(url: string, i: nat, m: nat)
    requires i <= m <= |url|
    requires NoKeywordBetween(url, i, m)
    ensures Search(url, i) == Search(url, m)
    decreases m - i
  {
    if i < m {
      assert KindAt(url, i).None?;
      SearchSkips(url, i + 1, m);
    }
  }

  /** An id followed by nothing or by a non-alphanumeric character is read whole. */
  lemma {:induction false} AlnumRunOfId(id: string, suffix: string)
    requires forall i :: 0 <= i < |id| ==> IsAlnum(id[i])
    requires suffix == [] || !IsAlnum(suffix[0])
    ensures AlnumRun(id + suffix) == id
  {
    if id != [] {
      assert (id + suffix)[1..] == id[1..] + suffix;
      AlnumRunOfId(id[1..], suffix);
    }
  }

  /** A keyword that ends before the prefix does reads the prefix alone. */
  lemma KeywordInPrefix(prefix: string, rest: string, i: nat, k: Kind)
    requires i + |Keyword(k)| < |prefix|
    ensures KeywordAt(prefix + rest, i, k) == KeywordAt(prefix, i, k)
  {
    var url := prefix + rest;
    var w := Keyword(k);
    assert url[i..i + |w|] == prefix[i..i + |w|];
    assert url[i + |w|] == prefix[i + |w|];
  }

  /** Keywords hold no slash, so none spans a slash. */
  lemma KeywordSpansNoSlash(url: string, i: nat, k: Kind, q: nat)
    requires i <= q < i + |Keyword(k)| && q < |url| && url[q] == '/'
    ensures !KeywordAt(url, i, k)
  {
    var w := Keyword(k);
    if i + |w| < |url| {
      assert url[i..i + |w|][q - i] == '/';
      assert w[q - i] in w;
    }
  }

  /** A keyword cannot begin before a slash-terminated prefix and end after it,
      because keywords hold no slash. */
  lemma NoMatchAcrossPrefix(prefix: string, rest: string, i: nat)
    requires |prefix| > 0 && prefix[|prefix| - 1] == '/'
    requires i < |prefix| && KindAt(prefix, i).None?
    ensures KindAt(prefix + rest, i).None?
  {
    var url := prefix + rest;
    KindAtNone(prefix, i);
    KindAtNone(url, i);
    forall k
      ensures !KeywordAt(url, i, k)
    {
      if i + |Keyword(k)| < |prefix| {
        KeywordInPrefix(prefix, rest, i, k);
      } else {
        KeywordSpansNoSlash(url, i, k, |prefix| - 1);
      }
    }
  }

  /** No match begins inside a slash-terminated prefix that holds none itself. */
  lemma PrefixSkipped(prefix: string, rest: string)
    requires |prefix| > 0 && prefix[|prefix| - 1] == '/'
    requires NoKeywordBetween(prefix, 0, |prefix|)
    ensures NoKeywordBetween(prefix + rest, 0, |prefix|)
  {
    forall i | 0 <= i < |prefix|
      ensures KindAt(prefix + rest, i).None?
    {
      NoMatchAcrossPrefix(prefix, rest, i);
    }
  }

  /** The alternation picks the keyword a link spells out. */
  lemma KindAtLink(head: string, k: Kind, tail: string)
    ensures KindAt(head + Keyword(k) + ['/'] + tail, |head|) == Some(k)
  {
    var url := head + Keyword(k) + ['/'] + tail;
    assert KeywordAt(url, |head|, k);
    KeywordsExclusive(url, |head|, k, KindAt(url, |head|).value);
  }

  /** The scan reads a keyword, a slash and an id where they begin. */
  lemma SearchAtLink(head: string, k: Kind, id: string, suffix: string)
    requires forall i :: 0 <= i < |id| ==> IsAlnum(id[i])
    requires suffix == [] || !IsAlnum(suffix[0])
    ensures Search(head + Keyword(k) + ['/'] + (id + suffix), |head|) == Some(Locator(k, id))
  {
    var url := head + Keyword(k) + ['/'] + (id + suffix);
    KindAtLink(head, k, id + suffix);
    assert url[|head| + |Keyword(k)| + 1..] == id + suffix;
    AlnumRunOfId(id, suffix);
  }

  /** A link of the form prefix + "track/" + id, after a prefix in which no
      keyword occurs, parses back to its kind and its id. */
  lemma ParseLink(prefix: string, k: Kind, id: string, suffix: string)
    requires |prefix| > 0 && prefix[|prefix| - 1] == '/'
    requires NoKeywordBetween(prefix, 0, |prefix|)
    requires forall i :: 0 <= i < |id| ==> IsAlnum(id[i])
    requires suffix == [] || !IsAlnum(suffix[0])
    ensures Parse(prefix + Keyword(k) + "/" + id + suffix) == Some(Locator(k, id))
  {
    var url := prefix + Keyword(k) + ['/'] + (id + suffix);
    assert url == prefix + Keyword(k) + "/" + id + suffix;
    assert url == prefix + (Keyword(k) + ['/'] + id + suffix);
    PrefixSkipped(prefix, Keyword(k) + ['/'] + id + suffix);
    SearchSkips(url, 0, |prefix|);
    SearchAtLink(prefix, k, id, suffix);
  }
}
