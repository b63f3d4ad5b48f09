/**
 * The pull-request URL finder of the API routes (`extract_pr_url_from_logs`): the first log entry
 * that mentions a pull request, names the GitHub host and holds a match of the URL pattern gives
 * the answer.
 */
module PrUrlExtract {
  import opened Wrappers
  import opened Seqs
  import opened Text
  import opened PrUrlMatch

  /** The phrase an entry must mention, in any letter case, before it is searched for a URL. */
  const PullRequestMention := "pull request"

  /** The text an entry must contain, letter case intact, before it is searched for a URL. */
  const GithubHost := "https://github.com"

  predicate MentionsPullRequest(entry: string)
  {
    Contains(Lower(entry), PullRequestMention)
  }

  /** An entry the finder takes its answer from: it passes both guards and the pattern occurs in it. */
  predicate YieldsPrUrl(entry: string)
  {
    PassesGuards(entry) && SearchPrUrl(entry).Some?
  }

  /** The two textual tests an entry must pass before the pattern is searched for. */
  predicate PassesGuards(entry: string)
  {
    MentionsPullRequest(entry) && Contains(entry, GithubHost)
  }

  /** The reference description of the finder: the URL matched in the first entry that yields one. */
  function PrUrlFromLogs(logs: seq<string>): Option<string>
  {
    var k := FirstWhere(logs, YieldsPrUrl);
    if k == |logs| then None else SearchPrUrl(logs[k])
  }

  /** An entry that mentions a pull request and holds a pull-request URL somewhere. */
  ghost predicate CarriesPrUrl(entry: string)
  {
    MentionsPullRequest(entry) && exists j :: 0 <= j <= |entry| && PrUrlAt(entry, j)
  }

  /** The host guard is implied by a match, since every match begins with the host. */
  lemma HostGuardRedundant(entry: string)
    ensures SearchPrUrl(entry).Some? ==> Contains(entry, GithubHost)
  {
    if SearchPrUrl(entry).Some? {
      var i := SearchFrom(entry, 0).value;
      assert entry[i..i + |GithubHost|] == entry[i..i + |UrlPrefix|][..|GithubHost|];
      assert OccursAt(entry, GithubHost, i);
    }
  }

  /** The guards and the search of the finder together pick out exactly the entries that mention a
      pull request and hold a pull-request URL. */
  lemma YieldsIffCarries(entry: string)
    ensures YieldsPrUrl(entry) <==> CarriesPrUrl(entry)
  {
    HostGuardRedundant(entry);
    SearchPrUrlNoneIff(entry);
  }

  /** The finder returns nothing exactly when no entry mentions a pull request and holds a URL. */
  lemma PrUrlFromLogsNoneIff(logs: seq<string>)
    ensures PrUrlFromLogs(logs).None? <==> forall k :: 0 <= k < |logs| ==> !CarriesPrUrl(logs[k])
  {
    FirstWhereFinds(logs, YieldsPrUrl);
    forall k | 0 <= k < |logs| {
      YieldsIffCarries(logs[k]);
    }
  }

  /** What the finder returns: a pull-request URL, with its whole number, which is the leftmost one
      in the first entry that mentions a pull request and holds a URL. */
  lemma PrUrlFromLogsFound(logs: seq<string>) returns (k: nat, i: nat, owner: string, repo: string, number: string)
    requires PrUrlFromLogs(logs).Some?
    ensures k < |logs| && CarriesPrUrl(logs[k])
    ensures forall j :: 0 <= j < k ==> !CarriesPrUrl(logs[j])
    ensures PrUrlFromLogs(logs).value == PrUrl(owner, repo, number)
    ensures Segment(owner) && Segment(repo) && Digits(number)
    ensures OccursAt(logs[k], PrUrl(owner, repo, number), i)
    ensures forall j :: 0 <= j < i ==> !PrUrlAt(logs[k], j)
    ensures var e := i + |PrUrl(owner, repo, number)|; e == |logs[k]| || !IsDigit(logs[k][e])
  {
    k := FirstWhere(logs, YieldsPrUrl);
    FirstWhereFinds(logs, YieldsPrUrl);
    forall j | 0 <= j <= k && j < |logs| {
      YieldsIffCarries(logs[j]);
    }
    i, owner, repo, number := SearchPrUrlFinds(logs[k]);
  }

  /** The loop of `extract_pr_url_from_logs`: the first entry that passes both guards and matches
      the pattern gives the answer. */
  method ExtractPrUrlFromLogs(logs: seq<string>) returns (prUrl: Option<string>)
    ensures prUrl == PrUrlFromLogs(logs)
  {
    var i := 0;
    while i < |logs|
      invariant i <= |logs|
      invariant forall k :: 0 <= k < i ==> !YieldsPrUrl(logs[k])
    {
      var logEntry := logs[i];
      if PassesGuards(logEntry) {
        var prUrlMatch := SearchPrUrl(logEntry);
        if prUrlMatch.Some? {
          FirstWhereIs(logs, YieldsPrUrl, i);
          return prUrlMatch;
        }
      }
      assert !YieldsPrUrl(logEntry);
      i := i + 1;
    }
    FirstWhereIs(logs, YieldsPrUrl, |logs|);
    return None;
  }

  /** A found URL is never empty, so the monitor's truthiness test on it reduces to `Some`. */
  lemma PrUrlFromLogsNonEmpty(logs: seq<string>)
    ensures PrUrlFromLogs(logs).Some? ==> |PrUrlFromLogs(logs).value| > |UrlPrefix|
  {
    if PrUrlFromLogs(logs).Some? {
      var k, i, owner, repo, number := PrUrlFromLogsFound(logs);
    }
  }
}
