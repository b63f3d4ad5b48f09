/**
 * A hand-written matcher for the one regular expression the PR-URL extractor searches with,
 * `https://github\.com/[^/]+/[^/]+/pull/\d+`, standing in for Python's `re.search(...).group(0)`.
 *
 * Both `[^/]+` runs are followed by a '/', which they cannot contain, so backtracking never shortens
 * them: each is the maximal slash-free run. The trailing `\d+` is greedy and nothing follows it, so
 * it is the maximal digit run. A match at a given start is therefore unique, and `MatchAt` computes it.
 */
module PrUrlMatch {
  import opened Wrappers
  import opened Seqs
  import opened Text

  const UrlPrefix := "https://github.com/"
  const PullInfix := "/pull/"

  predicate NotSlash(c: char) { c != '/' }

  /** `\d`, restricted to ASCII digits. */
  predicate IsDigit(c: char) { '0' <= c <= '9' }

  /** A non-empty run of characters other than '/' (`[^/]+`). */
  predicate Segment(a: string)
  {
    |a| > 0 && forall k :: 0 <= k < |a| ==> NotSlash(a[k])
  }

  /** A non-empty run of digits (`\d+`). */
  predicate Digits(n: string)
  {
    |n| > 0 && forall k :: 0 <= k < |n| ==> IsDigit(n[k])
  }

  /** The text of a pull-request URL with the given owner, repository and number. */
  function PrUrl(owner: string, repo: string, number: string): string
  {
    UrlPrefix + owner + "/" + repo + PullInfix + number
  }

  /** The end of the run of characters satisfying `p` that starts at `i`. */
  function RunEnd(s: string, i: nat, p: char -> bool): (j: nat)
    requires i <= |s|
    ensures i <= j <= |s|
    ensures forall k :: i <= k < j ==> p(s[k])
    ensures j < |s| ==> !p(s[j])
    decreases |s| - i
  {
    if i < |s| && p(s[i]) then RunEnd(s, i + 1, p) else i
  }

  /** The end of the match of the pattern that starts at index `i`, if there is one. */
  function MatchAt(s: string, i: nat): (r: Option<nat>)
    requires i <= |s|
    ensures r.Some? ==> i < r.value <= |s|
  {
    if !OccursAt(s, UrlPrefix, i) then None
    else
      var ownerEnd := RunEnd(s, i + |UrlPrefix|, NotSlash);
      if ownerEnd == i + |UrlPrefix| || ownerEnd == |s| then None
      else
        var repoEnd := RunEnd(s, ownerEnd + 1, NotSlash);
        if repoEnd == ownerEnd + 1 || !OccursAt(s, PullInfix, repoEnd) then None
        else
          var numberEnd := RunEnd(s, repoEnd + |PullInfix|, IsDigit);
          if numberEnd == repoEnd + |PullInfix| then None else Some(numberEnd)
  }

  /** A slice cut at five inner points is the concatenation of the six pieces. */
  lemma SliceSixPieces(s: string, x0: nat, x1: nat, x2: nat, x3: nat, x4: nat, x5: nat, x6: nat)
    requires x0 <= x1 <= x2 <= x3 <= x4 <= x5 <= x6 <= |s|
    ensures s[x0..x6] == s[x0..x1] + s[x1..x2] + s[x2..x3] + s[x3..x4] + s[x4..x5] + s[x5..x6]
  {
    SliceJoin(s, x0, x1, x2);
    SliceJoin(s, x0, x2, x3);
    SliceJoin(s, x0, x3, x4);
    SliceJoin(s, x0, x4, x5);
    SliceJoin(s, x0, x5, x6);
  }

  /** A slice equal to a concatenation of six strings splits into slices equal to the six strings. */
  lemma SliceSixParts(s: string, x: nat, a: string, b: string, c: string, d: string, e: string, f: string)
    requires x + |a + b + c + d + e + f| <= |s| && s[x..x + |a + b + c + d + e + f|] == a + b + c + d + e + f
    ensures var x1 := x + |a|; var x2 := x1 + |b|; var x3 := x2 + |c|; var x4 := x3 + |d|; var x5 := x4 + |e|;
      s[x..x1] == a && s[x1..x2] == b && s[x2..x3] == c && s[x3..x4] == d && s[x4..x5] == e &&
      s[x5..x5 + |f|] == f
  {
    SliceSplit(s, x, a + b + c + d + e, f);
    SliceSplit(s, x, a + b + c + d, e);
    SliceSplit(s, x, a + b + c, d);
    SliceSplit(s, x, a + b, c);
    SliceSplit(s, x, a, b);
  }

  /** Where the pieces of a match lie: the literal parts and the three runs between them. */
  lemma MatchAtPieces(s: string, i: nat) returns (ownerEnd: nat, repoEnd: nat)
    requires i <= |s| && MatchAt(s, i).Some?
    ensures i + |UrlPrefix| < ownerEnd && ownerEnd + 1 < repoEnd && repoEnd + |PullInfix| < MatchAt(s, i).value
    ensures s[i..i + |UrlPrefix|] == UrlPrefix
    ensures s[ownerEnd..ownerEnd + 1] == "/"
    ensures s[repoEnd..repoEnd + |PullInfix|] == PullInfix
    ensures Segment(s[i + |UrlPrefix|..ownerEnd]) && Segment(s[ownerEnd + 1..repoEnd])
    ensures Digits(s[repoEnd + |PullInfix|..MatchAt(s, i).value])
    ensures MatchAt(s, i).value == |s| || !IsDigit(s[MatchAt(s, i).value])
  {
    ownerEnd := RunEnd(s, i + |UrlPrefix|, NotSlash);
    repoEnd := RunEnd(s, ownerEnd + 1, NotSlash);
    RunSlice(s, i + |UrlPrefix|, NotSlash);
    RunSlice(s, ownerEnd + 1, NotSlash);
    RunSlice(s, repoEnd + |PullInfix|, IsDigit);
    assert s[ownerEnd..ownerEnd + 1] == "/" by {
      assert s[ownerEnd] == '/';
    }
  }

  /** Soundness of the matcher: what it matches is a pull-request URL whose number is the whole
      digit run (the character after the match, if any, is not a digit). */
  lemma MatchAtIsPrUrl(s: string, i: nat) returns (owner: string, repo: string, number: string)
    requires i <= |s| && MatchAt(s, i).Some?
    ensures s[i..MatchAt(s, i).value] == PrUrl(owner, repo, number)
    ensures Segment(owner) && Segment(repo) && Digits(number)
    ensures MatchAt(s, i).value == |s| || !IsDigit(s[MatchAt(s, i).value])
  {
    var ownerEnd, repoEnd := MatchAtPieces(s, i);
    var ownerStart := i + |UrlPrefix|;
    var numberStart := repoEnd + |PullInfix|;
    var e := MatchAt(s, i).value;
    owner, repo, number := s[ownerStart..ownerEnd], s[ownerEnd + 1..repoEnd], s[numberStart..e];
    SliceSixPieces(s, i, ownerStart, ownerEnd, ownerEnd + 1, repoEnd, numberStart, e);
  }

  /** Every character of a run satisfies the run's predicate. */
  lemma RunSlice(s: string, i: nat, p: char -> bool)
    requires i <= |s|
    ensures var r := s[i..RunEnd(s, i, p)]; forall k :: 0 <= k < |r| ==> p(r[k])
  {
    var j := RunEnd(s, i, p);
    forall k | 0 <= k < j - i ensures p(s[i..j][k]) {
      assert s[i..j][k] == s[i + k];
    }
  }

  /** Characters of a slice that equals a string inherit that string's per-character property. */
  lemma SliceAll(s: string, x: nat, a: string, p: char -> bool)
    requires x + |a| <= |s| && s[x..x + |a|] == a
    requires forall k :: 0 <= k < |a| ==> p(a[k])
    ensures forall k :: x <= k < x + |a| ==> p(s[k])
  {
    forall k | x <= k < x + |a| ensures p(s[k]) {
      assert s[k] == a[k - x];
    }
  }

  /** Completeness of the matcher: wherever a pull-request URL starts, the matcher matches, and its
      match extends at least to the end of that URL. */
  lemma MatchAtFindsPrUrl(s: string, i: nat, owner: string, repo: string, number: string)
    requires OccursAt(s, PrUrl(owner, repo, number), i)
    requires Segment(owner) && Segment(repo) && Digits(number)
    ensures MatchAt(s, i).Some? && MatchAt(s, i).value >= i + |PrUrl(owner, repo, number)|
  {
    var ownerStart := i + |UrlPrefix|;
    var ownerEnd := ownerStart + |owner|;
    var repoEnd := ownerEnd + 1 + |repo|;
    var numberStart := repoEnd + |PullInfix|;
    SliceSixParts(s, i, UrlPrefix, owner, "/", repo, PullInfix, number);
    assert s[ownerEnd] == '/' by {
      assert s[ownerEnd..ownerEnd + 1][0] == '/';
    }
    assert s[repoEnd] == '/' by {
      assert s[repoEnd..numberStart][0] == '/';
    }
    SliceAll(s, ownerStart, owner, NotSlash);
    SliceAll(s, ownerEnd + 1, repo, NotSlash);
    SliceAll(s, numberStart, number, IsDigit);
    RunEndIs(s, ownerStart, NotSlash, ownerEnd);
    RunEndIs(s, ownerEnd + 1, NotSlash, repoEnd);
    assert OccursAt(s, UrlPrefix, i);
    assert OccursAt(s, PullInfix, repoEnd);
  }

  /** A run that satisfies `p` up to `j` and stops there ends at `j`. */
  lemma RunEndIs(s: string, i: nat, p: char -> bool, j: nat)
    requires i <= j <= |s|
    requires forall k :: i <= k < j ==> p(s[k])
    requires j < |s| ==> !p(s[j])
    ensures RunEnd(s, i, p) == j
  {
  }

  /** `re.search`: the leftmost start at or after `from` where the pattern matches. */
  function SearchFrom(s: string, from: nat): (r: Option<nat>)
    requires from <= |s|
    ensures r.Some? ==> from <= r.value <= |s| && MatchAt(s, r.value).Some?
    decreases |s| - from
  {
    if MatchAt(s, from).Some? then Some(from)
    else if from == |s| then None
    else SearchFrom(s, from + 1)
  }

  /** The search passes over no position where the matcher succeeds. */
  lemma {:induction false} SearchFromLeftmost(s: string, from: nat)
    requires from <= |s|
    ensures forall k :: from <= k <= |s| && (SearchFrom(s, from).None? || k < SearchFrom(s, from).value) ==>
      MatchAt(s, k).None?
    decreases |s| - from
  {
    if MatchAt(s, from).None? && from < |s| {
      SearchFromLeftmost(s, from + 1);
    }
  }

  /** `re.search(pattern, s).group(0)`, or `None` when the pattern does not occur. */
  function SearchPrUrl(s: string): Option<string>
  {
    match SearchFrom(s, 0)
    case None => None
    case Some(i) => Some(s[i..MatchAt(s, i).value])
  }

  /** Some pull-request URL starts at index `j` of `s`. */
  ghost predicate PrUrlAt(s: string, j: nat)
  {
    exists owner, repo, number ::
      Segment(owner) && Segment(repo) && Digits(number) && OccursAt(s, PrUrl(owner, repo, number), j)
  }

  /** The matcher succeeds at exactly the positions where a pull-request URL starts. */
  lemma MatchAtIff(s: string, i: nat)
    requires i <= |s|
    ensures MatchAt(s, i).Some? <==> PrUrlAt(s, i)
  {
    if MatchAt(s, i).Some? {
      var owner, repo, number := MatchAtIsPrUrl(s, i);
      assert OccursAt(s, PrUrl(owner, repo, number), i);
    }
    if PrUrlAt(s, i) {
      var owner, repo, number :| Segment(owner) && Segment(repo) && Digits(number) &&
        OccursAt(s, PrUrl(owner, repo, number), i);
      MatchAtFindsPrUrl(s, i, owner, repo, number);
    }
  }

  /** The search finds nothing exactly when no pull-request URL occurs anywhere in the text. */
  lemma SearchPrUrlNoneIff(s: string)
    ensures SearchPrUrl(s).None? <==> forall j :: 0 <= j <= |s| ==> !PrUrlAt(s, j)
  {
    SearchFromLeftmost(s, 0);
    forall j | 0 <= j <= |s| {
      MatchAtIff(s, j);
    }
  }

  /** What the search returns: the leftmost pull-request URL in the text, with its whole digit run. */
  lemma SearchPrUrlFinds(s: string) returns (i: nat, owner: string, repo: string, number: string)
    requires SearchPrUrl(s).Some?
    ensures SearchPrUrl(s).value == PrUrl(owner, repo, number) && OccursAt(s, PrUrl(owner, repo, number), i)
    ensures Segment(owner) && Segment(repo) && Digits(number)
    ensures var e := i + |PrUrl(owner, repo, number)|; e == |s| || !IsDigit(s[e])
    ensures forall j :: 0 <= j < i ==> !PrUrlAt(s, j)
  {
    i := SearchFrom(s, 0).value;
    NoPrUrlBefore(s, i);
    owner, repo, number := MatchAtIsPrUrl(s, i);
  }

  /** No pull-request URL starts before the position the search stops at. */
  lemma NoPrUrlBefore(s: string, i: nat)
    requires SearchFrom(s, 0).Some? && i == SearchFrom(s, 0).value
    ensures forall j :: 0 <= j < i ==> !PrUrlAt(s, j)
  {
    SearchFromLeftmost(s, 0);
    forall j | 0 <= j < i ensures !PrUrlAt(s, j) {
      MatchAtIff(s, j);
    }
  }
}
