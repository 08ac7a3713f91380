/** The listing of AWS Organizations policies of one category: every page of policy
    summaries for the category's filter is walked, each summary is enriched with its
    canonicalised document content from a per-policy describe call, and the summaries are
    collected in a table keyed by ARN (altimeter/aws/resource/organizations/policy.py). */
module OrgPolicy {
  import opened Wrappers

  // ---------------------------------------------------------------------------------------
  // Provider data
  // ---------------------------------------------------------------------------------------

  /** A scalar field value of a policy summary (strings, and the AwsManaged flag). */
  datatype Value = Str(s: string) | Bool(b: bool)

  /** A policy summary as one listing page returns it: a dictionary of fields such as
      Id, Arn, Name, Description, Type and AwsManaged. */
  type Summary = map<string, Value>

  const ArnField := "Arn"
  const IdField := "Id"
  const ContentField := "Content"

  /** One page of the listing call; `policies` is None when the page has no "Policies" entry. */
  datatype Page = Page(policies: Option<seq<Summary>>)

  /** The "Policy" entry of a describe response, reduced to its document content. */
  datatype PolicyDetail = PolicyDetail(content: string)

  /** A describe response; `policy` is None when the response has no "Policy" entry. */
  datatype DescribeResponse = DescribeResponse(policy: Option<PolicyDetail>)

  /** The provider client, reduced to its two operations: the pages the listing call returns
      for a filter, and the response of the describe call for a policy id (None when the
      summary had no "Id"). */
  datatype Client = Client(
    listPolicies: string -> seq<Page>,
    describePolicy: Option<Value> -> DescribeResponse)

  /** A request sent to the provider, in the order it is sent. */
  datatype Call = ListPolicies(filter: string) | DescribePolicy(policyId: Option<Value>)

  /** Why a listing fails: the category has no policy type, or a summary has no "Arn". */
  datatype Error = PolicyTypeUnset | MissingArn

  /** One listing run: the ARN-keyed table (or the failure) and the requests that were sent. */
  datatype Run = Run(outcome: Result<map<Value, Summary>, Error>, calls: seq<Call>)

  // ---------------------------------------------------------------------------------------
  // Policy categories
  // ---------------------------------------------------------------------------------------

  /** The resource spec classes: the base class and its four subclasses, which differ only
      in the listing filter they fix. */
  datatype PolicyResourceSpec =
    | BaseOrgPolicy
    | AIOptOutOrgPolicy
    | BackupOrgPolicy
    | SCPOrgPolicy
    | TaggingOrgPolicy

  const AIOptOutPolicyType := "AISERVICES_OPT_OUT_POLICY"
  const BackupPolicyType := "BACKUP_POLICY"
  const SCPPolicyType := "SERVICE_CONTROL_POLICY"
  const TaggingPolicyType := "TAG_POLICY"

  /** The class's `policy_type`: unset on the base class, a fixed filter on each subclass. */
  function PolicyType(spec: PolicyResourceSpec): (t: Option<string>)
    ensures t.None? <==> spec.BaseOrgPolicy?
    ensures t.Some? ==> t.value in {AIOptOutPolicyType, BackupPolicyType, SCPPolicyType, TaggingPolicyType}
  {
    match spec
    case BaseOrgPolicy => None
    case AIOptOutOrgPolicy => Some(AIOptOutPolicyType)
    case BackupOrgPolicy => Some(BackupPolicyType)
    case SCPOrgPolicy => Some(SCPPolicyType)
    case TaggingOrgPolicy => Some(TaggingPolicyType)
  }

  /** Two different categories never list with the same filter. */
  lemma PolicyTypesDistinct(a: PolicyResourceSpec, b: PolicyResourceSpec)
    requires a != b
    ensures PolicyType(a) != PolicyType(b)
  {
  }

  // ---------------------------------------------------------------------------------------
  // Specification of the listing
  // ---------------------------------------------------------------------------------------

  /** The summaries of one page; a page without "Policies" has none. */
  function PageSummaries(page: Page): (ss: seq<Summary>)
    ensures page.policies.None? ==> ss == []
    ensures page.policies.Some? ==> ss == page.policies.value
  {
    match page.policies
    case Some(ps) => ps
    case None => []
  }

  /** The summaries of the first n pages, in page order and then in in-page order. */
  function FlattenUpTo(pages: seq<Page>, n: nat): seq<Summary>
    requires n <= |pages|
  {
    if n == 0 then [] else FlattenUpTo(pages, n - 1) + PageSummaries(pages[n - 1])
  }

  /** All summaries of all pages. */
  function Flatten(pages: seq<Page>): seq<Summary>
  {
    FlattenUpTo(pages, |pages|)
  }

  /** The id a summary's describe call is made with (None when it has no "Id"). */
  function IdOf(s: Summary): (id: Option<Value>)
    ensures id.Some? <==> IdField in s
    ensures id.Some? ==> id.value == s[IdField]
  {
    if IdField in s then Some(s[IdField]) else None
  }

  /** Each of the first n summaries has an "Arn". */
  predicate ArnsPresent(ss: seq<Summary>, n: nat)
    requires n <= |ss|
  {
    forall i :: 0 <= i < n ==> ArnField in ss[i]
  }

  /** The ARN values of the first n summaries. */
  function ArnsUpTo(ss: seq<Summary>, n: nat): set<Value>
    requires n <= |ss|
  {
    set i | 0 <= i < n && ArnField in ss[i] :: ss[i][ArnField]
  }

  /** The index of the first summary without an "Arn", or |ss| when every summary has one. */
  function FirstMissingArn(ss: seq<Summary>): (k: nat)
    ensures k <= |ss|
    ensures ArnsPresent(ss, k)
    ensures k < |ss| ==> ArnField !in ss[k]
  {
    if ss == [] || ArnField !in ss[0] then 0 else 1 + FirstMissingArn(ss[1..])
  }

  /** The index of the last of the first n summaries whose ARN is `arn`. */
  function LastArnIndex(ss: seq<Summary>, n: nat, arn: Value): (i: nat)
    requires n <= |ss| && arn in ArnsUpTo(ss, n)
    ensures i < n && ArnField in ss[i] && ss[i][ArnField] == arn
    ensures forall j :: i < j < n ==> ArnField !in ss[j] || ss[j][ArnField] != arn
  {
    if ArnField in ss[n - 1] && ss[n - 1][ArnField] == arn then n - 1
    else LastArnIndex(ss, n - 1, arn)
  }

  /** A summary after its describe response: Content is replaced by the canonical form of
      the document when the response carries a Policy; nothing else changes. */
  function Enrich(s: Summary, resp: DescribeResponse, canon: string -> string): (r: Summary)
    ensures resp.policy.None? ==> r == s
    ensures resp.policy.Some? ==> r.Keys == s.Keys + {ContentField}
    ensures resp.policy.Some? ==> r[ContentField] == Str(canon(resp.policy.value.content))
    ensures forall f :: f in s && f != ContentField ==> f in r && r[f] == s[f]
  {
    if resp.policy.Some? then s[ContentField := Str(canon(resp.policy.value.content))] else s
  }

  /** One summary of the loop: its ARN is read (failing if it has none), its describe request
      is sent, and the enriched summary is stored under its ARN, overwriting an earlier entry
      with that ARN. A run that has already failed is left as it is. */
  function Step(done: Run, s: Summary, describe: Option<Value> -> DescribeResponse, canon: string -> string): Run
  {
    if done.outcome.Failure? then done
    else if ArnField !in s then Run(Failure(MissingArn), done.calls)
    else
      var table := done.outcome.value[s[ArnField] := Enrich(s, describe(IdOf(s)), canon)];
      Run(Success(table), done.calls + [DescribePolicy(IdOf(s))])
  }

  /** Processing the first n summaries one after the other, continuing from `start`. */
  function Process(start: Run, ss: seq<Summary>, n: nat,
                   describe: Option<Value> -> DescribeResponse, canon: string -> string): Run
    requires n <= |ss|
  {
    if n == 0 then start else Step(Process(start, ss, n - 1, describe, canon), ss[n - 1], describe, canon)
  }

  /** Processing the summaries of the first i pages, page after page, continuing from `start`. */
  function ProcessPages(start: Run, pages: seq<Page>, i: nat,
                        describe: Option<Value> -> DescribeResponse, canon: string -> string): Run
    requires i <= |pages|
  {
    if i == 0 then start
    else
      var page := PageSummaries(pages[i - 1]);
      Process(ProcessPages(start, pages, i - 1, describe, canon), page, |page|, describe, canon)
  }

  /** The whole listing for one category: fail before any request when the policy type is
      unset; otherwise send the listing request with the policy type as filter, then process
      every listed summary, starting from an empty table. */
  function ExpectedListing(spec: PolicyResourceSpec, client: Client, canon: string -> string): Run
  {
    match PolicyType(spec)
    case None => Run(Failure(PolicyTypeUnset), [])
    case Some(filter) =>
      var ss := Flatten(client.listPolicies(filter));
      Process(Run(Success(map[]), [ListPolicies(filter)]), ss, |ss|, client.describePolicy, canon)
  }

  // ---------------------------------------------------------------------------------------
  // The listing itself
  // ---------------------------------------------------------------------------------------

  /** `list_from_aws`: fails when the policy type is unset; otherwise walks the pages listed
      with the policy type as filter and adds each page's summaries to the ARN-keyed table. */
  method ListFromAws(spec: PolicyResourceSpec, client: Client, canon: string -> string)
    returns (outcome: Result<map<Value, Summary>, Error>, calls: seq<Call>)
    ensures spec.BaseOrgPolicy? ==> outcome == Failure(PolicyTypeUnset) && calls == []
    ensures Run(outcome, calls) == ExpectedListing(spec, client, canon)
  {
    var policyType := PolicyType(spec);
    if policyType.None? {
      return Failure(PolicyTypeUnset), [];
    }
    var filter := policyType.value;
    var policies: map<Value, Summary> := map[];
    var pages := client.listPolicies(filter);
    calls := [ListPolicies(filter)];
    ghost var start := Run(Success(policies), calls);
    var i := 0;
    while i < |pages|
      invariant 0 <= i <= |pages|
      invariant ProcessPages(start, pages, i, client.describePolicy, canon) == Run(Success(policies), calls)
    {
      var page := PageSummaries(pages[i]);
      var pageOutcome;
      pageOutcome, calls := ListPagePolicies(page, policies, calls, client.describePolicy, canon);
      if pageOutcome.Failure? {
        ProcessPagesFailureSticks(start, pages, i + 1, |pages|, client.describePolicy, canon);
        ProcessPagesIsProcess(start, pages, |pages|, client.describePolicy, canon);
        return pageOutcome, calls;
      }
      policies := pageOutcome.value;
      i := i + 1;
    }
    ProcessPagesIsProcess(start, pages, |pages|, client.describePolicy, canon);
    outcome := Success(policies);
  }

  /** The loop over one page's summaries in `list_from_aws`: each summary's ARN is read, its
      describe request is sent with its id, its Content is replaced when the response carries
      a Policy, and it is stored under its ARN in the table built so far. */
  method ListPagePolicies(page: seq<Summary>, policies: map<Value, Summary>, calls: seq<Call>,
                          describe: Option<Value> -> DescribeResponse, canon: string -> string)
    returns (outcome: Result<map<Value, Summary>, Error>, sent: seq<Call>)
    ensures Run(outcome, sent) == Process(Run(Success(policies), calls), page, |page|, describe, canon)
  {
    ghost var start := Run(Success(policies), calls);
    var table := policies;
    sent := calls;
    var j := 0;
    while j < |page|
      invariant 0 <= j <= |page|
      invariant Process(start, page, j, describe, canon) == Run(Success(table), sent)
    {
      var policy := page[j];
      if ArnField !in policy {
        ProcessFailureSticks(start, page, j + 1, |page|, describe, canon);
        return Failure(MissingArn), sent;
      }
      var resourceArn := policy[ArnField];
      var policyId := if IdField in policy then Some(policy[IdField]) else None;
      var describePolicyResp := describe(policyId);
      sent := sent + [DescribePolicy(policyId)];
      if describePolicyResp.policy.Some? {
        policy := policy[ContentField := Str(canon(describePolicyResp.policy.value.content))];
      }
      table := table[resourceArn := policy];
      j := j + 1;
    }
    outcome := Success(table);
  }

  // ---------------------------------------------------------------------------------------
  // Properties of the pages
  // ---------------------------------------------------------------------------------------

  /** A summary is listed exactly when it is on one of the pages. */
  lemma {:induction false} FlattenMembers(pages: seq<Page>, n: nat, s: Summary)
    requires n <= |pages|
    ensures s in FlattenUpTo(pages, n) <==> exists i :: 0 <= i < n && s in PageSummaries(pages[i])
  {
    if n > 0 {
      FlattenMembers(pages, n - 1, s);
    }
  }

  /** The summaries of the first n pages depend on those pages only. */
  lemma {:induction false} FlattenSamePrefix(pages: seq<Page>, others: seq<Page>, n: nat)
    requires n <= |pages| && n <= |others|
    requires forall j :: 0 <= j < n ==> pages[j] == others[j]
    ensures FlattenUpTo(pages, n) == FlattenUpTo(others, n)
  {
    if n > 0 {
      FlattenSamePrefix(pages, others, n - 1);
    }
  }

  /** The summaries of two runs of pages, one after the other, are those of the first run
      followed by those of the first k pages of the second. */
  lemma {:induction false} FlattenConcatUpTo(first: seq<Page>, second: seq<Page>, k: nat)
    requires k <= |second|
    ensures FlattenUpTo(first + second, |first| + k) == Flatten(first) + FlattenUpTo(second, k)
  {
    var both := first + second;
    if k == 0 {
      FlattenSamePrefix(both, first, |first|);
    } else {
      FlattenConcatUpTo(first, second, k - 1);
      assert both[|first| + k - 1] == second[k - 1];
      var last := PageSummaries(second[k - 1]);
      calc {
        FlattenUpTo(both, |first| + k);
        FlattenUpTo(both, |first| + k - 1) + last;
        Flatten(first) + FlattenUpTo(second, k - 1) + last;
        Flatten(first) + (FlattenUpTo(second, k - 1) + last);
      }
    }
  }

  /** Listing two runs of pages one after the other lists the first run's summaries, then
      the second's. */
  lemma FlattenConcat(first: seq<Page>, second: seq<Page>)
    ensures Flatten(first + second) == Flatten(first) + Flatten(second)
  {
    FlattenConcatUpTo(first, second, |second|);
  }

  /** A page with no summaries (in particular one with no "Policies" entry) contributes
      nothing, wherever it appears. */
  lemma EmptyPageContributesNothing(pages: seq<Page>, i: nat, p: Page)
    requires i <= |pages| && PageSummaries(p) == []
    ensures Flatten(pages[..i] + [p] + pages[i..]) == Flatten(pages)
  {
    var before, after := pages[..i], pages[i..];
    assert Flatten([p]) == FlattenUpTo([p], 0) + PageSummaries([p][0]) == [];
    assert pages == before + after;
    FlattenConcat(before + [p], after);
    FlattenConcat(before, [p]);
    FlattenConcat(before, after);
  }

  // ---------------------------------------------------------------------------------------
  // Properties of processing the summaries
  // ---------------------------------------------------------------------------------------

  /** Processing a run of summaries that sit at position m of `ss` continues processing `ss`. */
  lemma {:induction false} ProcessSplit(start: Run, ss: seq<Summary>, m: nat, part: seq<Summary>, k: nat,
                                        describe: Option<Value> -> DescribeResponse, canon: string -> string)
    requires k <= |part| && m + k <= |ss|
    requires forall j :: 0 <= j < k ==> ss[m + j] == part[j]
    ensures Process(start, ss, m + k, describe, canon)
         == Process(Process(start, ss, m, describe, canon), part, k, describe, canon)
  {
    if k > 0 {
      ProcessSplit(start, ss, m, part, k - 1, describe, canon);
      assert ss[m + k - 1] == part[k - 1];
    }
  }

  /** Processing page after page is processing all the pages' summaries in one sequence. */
  lemma {:induction false} ProcessPagesIsProcess(start: Run, pages: seq<Page>, i: nat,
                                                 describe: Option<Value> -> DescribeResponse, canon: string -> string)
    requires i <= |pages|
    ensures ProcessPages(start, pages, i, describe, canon)
         == Process(start, FlattenUpTo(pages, i), |FlattenUpTo(pages, i)|, describe, canon)
  {
    if i > 0 {
      ProcessPagesIsProcess(start, pages, i - 1, describe, canon);
      var earlier, page := FlattenUpTo(pages, i - 1), PageSummaries(pages[i - 1]);
      calc {
        ProcessPages(start, pages, i, describe, canon);
        Process(ProcessPages(start, pages, i - 1, describe, canon), page, |page|, describe, canon);
        Process(Process(start, earlier, |earlier|, describe, canon), page, |page|, describe, canon);
        { ProcessConcat(start, earlier, page, describe, canon); }
        Process(start, earlier + page, |earlier + page|, describe, canon);
      }
    }
  }

  /** Processing a concatenation is processing its second part after its first. */
  lemma ProcessConcat(start: Run, xs: seq<Summary>, ys: seq<Summary>,
                      describe: Option<Value> -> DescribeResponse, canon: string -> string)
    ensures Process(start, xs + ys, |xs + ys|, describe, canon)
         == Process(Process(start, xs, |xs|, describe, canon), ys, |ys|, describe, canon)
  {
    var zs := xs + ys;
    ProcessSplit(start, zs, |xs|, ys, |ys|, describe, canon);
    ProcessSamePrefix(start, zs, xs, |xs|, describe, canon);
  }

  /** Processing n summaries looks at nothing beyond them. */
  lemma {:induction false} ProcessSamePrefix(start: Run, ss: seq<Summary>, tt: seq<Summary>, n: nat,
                                             describe: Option<Value> -> DescribeResponse, canon: string -> string)
    requires n <= |ss| && n <= |tt|
    requires forall j :: 0 <= j < n ==> ss[j] == tt[j]
    ensures Process(start, ss, n, describe, canon) == Process(start, tt, n, describe, canon)
  {
    if n > 0 {
      ProcessSamePrefix(start, ss, tt, n - 1, describe, canon);
    }
  }

  /** A run that has failed stays as it is, whatever summaries follow. */
  lemma {:induction false} ProcessAfterFailure(r: Run, ss: seq<Summary>, n: nat,
                                               describe: Option<Value> -> DescribeResponse, canon: string -> string)
    requires n <= |ss| && r.outcome.Failure?
    ensures Process(r, ss, n, describe, canon) == r
  {
    if n > 0 {
      ProcessAfterFailure(r, ss, n - 1, describe, canon);
    }
  }

  /** Once a page has made the listing fail, the later pages change nothing. */
  lemma {:induction false} ProcessPagesFailureSticks(start: Run, pages: seq<Page>, i: nat, k: nat,
                                                     describe: Option<Value> -> DescribeResponse, canon: string -> string)
    requires i <= k <= |pages|
    requires ProcessPages(start, pages, i, describe, canon).outcome.Failure?
    ensures ProcessPages(start, pages, k, describe, canon) == ProcessPages(start, pages, i, describe, canon)
  {
    if k > i {
      ProcessPagesFailureSticks(start, pages, i, k - 1, describe, canon);
      var page := PageSummaries(pages[k - 1]);
      ProcessAfterFailure(ProcessPages(start, pages, k - 1, describe, canon), page, |page|, describe, canon);
    }
  }

  /** Once processing has failed, later summaries change nothing: no more requests, no table. */
  lemma {:induction false} ProcessFailureSticks(start: Run, ss: seq<Summary>, m: nat, n: nat,
                                                describe: Option<Value> -> DescribeResponse, canon: string -> string)
    requires m <= n <= |ss|
    requires Process(start, ss, m, describe, canon).outcome.Failure?
    ensures Process(start, ss, n, describe, canon) == Process(start, ss, m, describe, canon)
  {
    if n > m {
      ProcessFailureSticks(start, ss, m, n - 1, describe, canon);
    }
  }

  /** Processing n summaries after a successful start succeeds exactly when each of them has
      an ARN, and fails with MissingArn otherwise; the requests sent before are kept, and one
      describe request follows per summary, in order and with that summary's id, up to the
      first summary without an ARN. */
  lemma {:induction false} ProcessProgress(table: map<Value, Summary>, before: seq<Call>, ss: seq<Summary>, n: nat,
                                           describe: Option<Value> -> DescribeResponse, canon: string -> string)
    requires n <= |ss|
    ensures var r := Process(Run(Success(table), before), ss, n, describe, canon);
      && (r.outcome.Success? <==> ArnsPresent(ss, n))
      && (r.outcome.Failure? ==> r.outcome.error == MissingArn)
      && |r.calls| == |before| + (if ArnsPresent(ss, n) then n else FirstMissingArn(ss))
      && r.calls[..|before|] == before
      && forall i :: 0 <= i < |r.calls| - |before| ==> r.calls[|before| + i] == DescribePolicy(IdOf(ss[i]))
  {
    if n > 0 {
      var start := Run(Success(table), before);
      ProcessProgress(table, before, ss, n - 1, describe, canon);
      var done := Process(start, ss, n - 1, describe, canon);
      var k := FirstMissingArn(ss);
      if !ArnsPresent(ss, n - 1) {
        assert ArnField !in ss[k];
      } else if ArnField !in ss[n - 1] {
        assert k == n - 1;
      } else {
        var call := DescribePolicy(IdOf(ss[n - 1]));
        assert (done.calls + [call])[..|before|] == done.calls[..|before|];
      }
    }
  }

  /** When each of the first n summaries has an ARN, the table's keys are those it started
      with plus exactly the summaries' ARNs. */
  lemma {:induction false} ProcessKeys(table: map<Value, Summary>, before: seq<Call>, ss: seq<Summary>, n: nat,
                                       describe: Option<Value> -> DescribeResponse, canon: string -> string)
    requires n <= |ss| && ArnsPresent(ss, n)
    ensures Process(Run(Success(table), before), ss, n, describe, canon).outcome.Success?
    ensures Process(Run(Success(table), before), ss, n, describe, canon).outcome.value.Keys
         == table.Keys + ArnsUpTo(ss, n)
  {
    if n > 0 {
      ProcessKeys(table, before, ss, n - 1, describe, canon);
      assert ArnsUpTo(ss, n) == ArnsUpTo(ss, n - 1) + {ss[n - 1][ArnField]};
    }
  }

  /** Last write wins: the table holds, under each ARN of the processed summaries, the
      enriched form of the last summary with that ARN. */
  lemma {:induction false} ProcessLastWriteWins(table: map<Value, Summary>, before: seq<Call>, ss: seq<Summary>,
                                                n: nat, arn: Value,
                                                describe: Option<Value> -> DescribeResponse, canon: string -> string)
    requires n <= |ss| && ArnsPresent(ss, n) && arn in ArnsUpTo(ss, n)
    ensures Process(Run(Success(table), before), ss, n, describe, canon).outcome.Success?
    ensures var t := Process(Run(Success(table), before), ss, n, describe, canon).outcome.value;
            var s := ss[LastArnIndex(ss, n, arn)];
            arn in t && t[arn] == Enrich(s, describe(IdOf(s)), canon)
  {
    var i :| 0 <= i < n && ArnField in ss[i] && ss[i][ArnField] == arn;
    var start := Run(Success(table), before);
    ProcessKeys(table, before, ss, n - 1, describe, canon);
    var done, s := Process(start, ss, n - 1, describe, canon), ss[n - 1];
    var stored := Enrich(s, describe(IdOf(s)), canon);
    var t := done.outcome.value[s[ArnField] := stored];
    assert Process(start, ss, n, describe, canon).outcome.value == t;
    if s[ArnField] == arn {
      assert LastArnIndex(ss, n, arn) == n - 1;
      assert t[arn] == stored;
    } else {
      assert i < n - 1 && arn in ArnsUpTo(ss, n - 1);
      assert LastArnIndex(ss, n, arn) == LastArnIndex(ss, n - 1, arn);
      ProcessLastWriteWins(table, before, ss, n - 1, arn, describe, canon);
      StoreKeepsOthers(done.outcome.value, s[ArnField], stored, arn);
    }
  }

  /** Proof helper for ProcessLastWriteWins: storing under one key leaves every other key's
      entry as it was. Stated as a lemma of its own so that the map update is reasoned about
      apart from the processing, which keeps that proof cheap for the solver. */
  lemma StoreKeepsOthers(table: map<Value, Summary>, key: Value, stored: Summary, other: Value)
    requires other in table && other != key
    ensures other in table[key := stored] && table[key := stored][other] == table[other]
  {
  }

  /** Nothing else changes: an entry of the starting table whose ARN none of the processed
      summaries carries keeps its value. */
  lemma {:induction false} ProcessKeepsUntouched(table: map<Value, Summary>, before: seq<Call>, ss: seq<Summary>,
                                                 n: nat, key: Value,
                                                 describe: Option<Value> -> DescribeResponse, canon: string -> string)
    requires n <= |ss| && ArnsPresent(ss, n) && key in table && key !in ArnsUpTo(ss, n)
    ensures var t := Process(Run(Success(table), before), ss, n, describe, canon).outcome;
            t.Success? && key in t.value && t.value[key] == table[key]
  {
    if n > 0 {
      assert ArnsUpTo(ss, n - 1) <= ArnsUpTo(ss, n);
      ProcessKeepsUntouched(table, before, ss, n - 1, key, describe, canon);
      assert ss[n - 1][ArnField] in ArnsUpTo(ss, n);
    }
  }

  /** The table only grows while the summaries are processed: every key present after m
      summaries is still present after n >= m. */
  lemma {:induction false} ProcessGrows(table: map<Value, Summary>, before: seq<Call>, ss: seq<Summary>, m: nat, n: nat,
                     describe: Option<Value> -> DescribeResponse, canon: string -> string)
    requires m <= n <= |ss| && ArnsPresent(ss, n)
    ensures Process(Run(Success(table), before), ss, m, describe, canon).outcome.Success?
    ensures Process(Run(Success(table), before), ss, n, describe, canon).outcome.Success?
    ensures Process(Run(Success(table), before), ss, m, describe, canon).outcome.value.Keys
         <= Process(Run(Success(table), before), ss, n, describe, canon).outcome.value.Keys
  {
    ProcessKeys(table, before, ss, m, describe, canon);
    ProcessKeys(table, before, ss, n, describe, canon);
  }

  // ---------------------------------------------------------------------------------------
  // Properties of the whole listing
  // ---------------------------------------------------------------------------------------

  /** The requests of a listing with a policy type: one listing request with the policy type
      as filter, then one describe request per summary, in page order, with the summary's id,
      up to the first summary without an ARN. */
  lemma ListingRequests(spec: PolicyResourceSpec, client: Client, canon: string -> string)
    requires spec != BaseOrgPolicy
    ensures var filter := PolicyType(spec).value;
            var ss := Flatten(client.listPolicies(filter));
            var calls := ExpectedListing(spec, client, canon).calls;
            && |calls| == 1 + FirstMissingArn(ss)
            && calls[0] == ListPolicies(filter)
            && forall i :: 0 <= i < FirstMissingArn(ss) ==> calls[1 + i] == DescribePolicy(IdOf(ss[i]))
  {
    var filter := PolicyType(spec).value;
    var ss := Flatten(client.listPolicies(filter));
    ProcessProgress(map[], [ListPolicies(filter)], ss, |ss|, client.describePolicy, canon);
    var calls := ExpectedListing(spec, client, canon).calls;
    assert calls[..1] == [ListPolicies(filter)];
  }

  /** A listing with a policy type succeeds exactly when every listed summary has an ARN;
      otherwise it fails with MissingArn. */
  lemma ListingOutcome(spec: PolicyResourceSpec, client: Client, canon: string -> string)
    requires spec != BaseOrgPolicy
    ensures var ss := Flatten(client.listPolicies(PolicyType(spec).value));
            var r := ExpectedListing(spec, client, canon);
            && (r.outcome.Success? <==> ArnsPresent(ss, |ss|))
            && (r.outcome.Failure? ==> r.outcome.error == MissingArn)
  {
    var filter := PolicyType(spec).value;
    var ss := Flatten(client.listPolicies(filter));
    ProcessProgress(map[], [ListPolicies(filter)], ss, |ss|, client.describePolicy, canon);
  }

  /** The table of a successful listing: its keys are exactly the ARNs of all listed
      summaries; under each ARN it holds the last summary with that ARN, with every field but
      Content unchanged, and with Content replaced by the canonical form of the described
      document exactly when the describe response carries a Policy. */
  lemma ListingTable(spec: PolicyResourceSpec, client: Client, canon: string -> string)
    requires spec != BaseOrgPolicy
    requires var ss := Flatten(client.listPolicies(PolicyType(spec).value)); ArnsPresent(ss, |ss|)
    ensures var ss := Flatten(client.listPolicies(PolicyType(spec).value));
            var r := ExpectedListing(spec, client, canon);
            && r.outcome.Success?
            && r.outcome.value.Keys == ArnsUpTo(ss, |ss|)
            && forall arn :: arn in r.outcome.value ==>
                 var s := ss[LastArnIndex(ss, |ss|, arn)];
                 var resp := client.describePolicy(IdOf(s));
                 var stored := r.outcome.value[arn];
                 && (forall f :: f != ContentField ==> (f in stored <==> f in s))
                 && (forall f :: f in s && f != ContentField ==> stored[f] == s[f])
                 && (resp.policy.Some? ==> ContentField in stored && stored[ContentField] == Str(canon(resp.policy.value.content)))
                 && (resp.policy.None? ==> stored == s)
  {
    var filter := PolicyType(spec).value;
    var ss := Flatten(client.listPolicies(filter));
    var start := Run(Success(map[]), [ListPolicies(filter)]);
    ProcessKeys(map[], [ListPolicies(filter)], ss, |ss|, client.describePolicy, canon);
    forall arn | arn in ArnsUpTo(ss, |ss|)
      ensures var s := ss[LastArnIndex(ss, |ss|, arn)];
              Process(start, ss, |ss|, client.describePolicy, canon).outcome.value[arn]
                == Enrich(s, client.describePolicy(IdOf(s)), canon)
    {
      ProcessLastWriteWins(map[], [ListPolicies(filter)], ss, |ss|, arn, client.describePolicy, canon);
    }
  }
}
