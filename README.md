# AWS Organizations policy listing — a Dafny model

This project models how altimeter lists the AWS Organizations policies of one category.
The code is `list_from_aws` of `BaseOrgPolicyResourceSpec` together with the four subclasses
that fix its `policy_type`. For a category with a policy type, the listing:

- sends one paginated `list_policies` request with the policy type as `Filter`;
- walks the returned pages in order, and within a page the policy summaries in order;
- reads each summary's `Arn`;
- sends one `describe_policy` request with the summary's `Id`;
- replaces the summary's `Content` with the canonical form of the described document when
  the response carries a `Policy`;
- stores the summary in a table keyed by ARN, so a later summary with the same ARN
  overwrites an earlier one.

The base class has no policy type, and listing with it fails before any request is sent.

The model has two modules:

- `Wrappers` holds `Option` and `Result`.
- `OrgPolicy` holds:
  - the provider data: summaries as maps from field names to values, pages, describe
    responses, and the client as a pair of functions;
  - the five resource-spec classes as a datatype with their `policy_type` constants;
  - the specification functions: `Process` goes over the summaries one `Step` at a time,
    `ProcessPages` page by page, and `ExpectedListing` covers the whole listing;
  - the listing itself as two imperative methods with nested loops, `ListFromAws` and
    `ListPagePolicies`, each proved equal to the specification;
  - lemmas about the specification.

The listing's result is a `Result`: the ARN-keyed table, or an error. It comes with the
sequence of requests sent to the provider (`ListPolicies(filter)`, then one
`DescribePolicy(id)` per summary). The document canonicaliser is passed in as a function
`canon`, and nothing is assumed about it.

## Model

| member | source | states |
|---|---|---|
| OrgPolicy.ListFromAws | altimeter/aws/resource/organizations/policy.py:34-68 | The listing fails with PolicyTypeUnset and sends no request when the policy type is unset. Otherwise its table or error, and every request it sends in order, are exactly those of ExpectedListing: one listing request with the policy type as filter, then the page-by-page processing of every summary. |
| OrgPolicy.ListPagePolicies | altimeter/aws/resource/organizations/policy.py:53-65 | The loop over one page's summaries returns the table and the request log that Process gives for that page, starting from the table and log built so far. This includes stopping with MissingArn at a summary without an ARN. |
| OrgPolicy.PolicyType | altimeter/aws/resource/organizations/policy.py:71-84 | The policy type is unset exactly for the base class. Every subclass's policy type is one of AISERVICES_OPT_OUT_POLICY, BACKUP_POLICY, SERVICE_CONTROL_POLICY and TAG_POLICY. |
| OrgPolicy.PolicyTypesDistinct | altimeter/aws/resource/organizations/policy.py:71-84 | Two different classes never list with the same filter, so each subclass fixes its own policy type. |
| OrgPolicy.Enrich | altimeter/aws/resource/organizations/policy.py:59-62 | When the response has no Policy, the summary is unchanged. When it has one, the keys become the old keys plus Content, and Content becomes the canonical form of the described document. Every field other than Content keeps its value. |
| OrgPolicy.FirstMissingArn | altimeter/aws/resource/organizations/policy.py:53-54 | Returns the position of the first summary without an "Arn", or the count of summaries when there is none. Every summary before it has an ARN. |
| OrgPolicy.LastArnIndex | altimeter/aws/resource/organizations/policy.py:65 | Returns the position of the last summary carrying a given ARN. No later summary carries that ARN. |
| OrgPolicy.FlattenMembers | altimeter/aws/resource/organizations/policy.py:52-53 | A summary is among those walked exactly when it is on one of the pages. |
| OrgPolicy.FlattenConcat | altimeter/aws/resource/organizations/policy.py:52-53 | The summaries of two runs of pages are the first run's followed by the second's. |
| OrgPolicy.EmptyPageContributesNothing | altimeter/aws/resource/organizations/policy.py:53 | Inserting a page without summaries (such as one with no "Policies" entry) anywhere among the pages leaves the walked summaries unchanged. |
| OrgPolicy.ProcessPagesIsProcess | altimeter/aws/resource/organizations/policy.py:52-65 | Walking page after page, each with its inner loop, is the same as processing all the pages' summaries as one sequence. |
| OrgPolicy.ProcessConcat | altimeter/aws/resource/organizations/policy.py:52-65 | Processing two runs of summaries one after the other is processing their concatenation. |
| OrgPolicy.ProcessSplit | altimeter/aws/resource/organizations/policy.py:52-65 | Processing continues from any point: processing m + k summaries is processing k more after the first m. |
| OrgPolicy.ProcessSamePrefix | altimeter/aws/resource/organizations/policy.py:53-65 | Processing n summaries depends on those n summaries only. |
| OrgPolicy.ProcessAfterFailure | altimeter/aws/resource/organizations/policy.py:54 | Once the listing has failed, later summaries send no request and change nothing. |
| OrgPolicy.ProcessFailureSticks | altimeter/aws/resource/organizations/policy.py:54 | A failure after m summaries is the final result after any n >= m summaries. |
| OrgPolicy.ProcessPagesFailureSticks | altimeter/aws/resource/organizations/policy.py:52-54 | A failure on one page is the final result: later pages are not processed. |
| OrgPolicy.ProcessProgress | altimeter/aws/resource/organizations/policy.py:53-58 | Processing succeeds exactly when every summary has an ARN, and otherwise fails with MissingArn. The earlier requests are kept. Then one describe request per summary follows, in order, with that summary's id, up to the first summary without an ARN. |
| OrgPolicy.ProcessKeys | altimeter/aws/resource/organizations/policy.py:54-65 | When every summary has an ARN, the table's keys are the keys it started with plus exactly the summaries' ARNs. |
| OrgPolicy.ProcessLastWriteWins | altimeter/aws/resource/organizations/policy.py:54-65 | Under each processed ARN, the table holds the enriched form of the last summary with that ARN. |
| OrgPolicy.ProcessKeepsUntouched | altimeter/aws/resource/organizations/policy.py:53-65 | Nothing else changes: an entry of the table built so far (for instance from earlier pages) whose ARN none of the processed summaries carries keeps its value. |
| OrgPolicy.ProcessGrows | altimeter/aws/resource/organizations/policy.py:49-65 | The table only grows: every key present after m summaries is still present after n >= m. |
| OrgPolicy.ListingRequests | altimeter/aws/resource/organizations/policy.py:50-58 | A listing with a policy type sends one listing request filtered by that type. It then sends one describe request per listed summary, in page order, with that summary's id, up to the first summary without an ARN, and nothing else. |
| OrgPolicy.ListingOutcome | altimeter/aws/resource/organizations/policy.py:52-54 | A listing with a policy type succeeds exactly when every listed summary has an ARN. Otherwise it fails with MissingArn. |
| OrgPolicy.ListingTable | altimeter/aws/resource/organizations/policy.py:52-68 | The keys of a successful listing's table are exactly the ARNs of all listed summaries. Under each ARN is the last summary with that ARN: every field but Content keeps its value, no field other than Content is added or removed, Content becomes the canonical document when the describe response has a Policy, and otherwise the summary is stored unchanged. |

## Left out

- The boto3 client is a pair of total functions. The model leaves out the paginator's cursor
  mechanics, the lazy fetching of one page after another between describe calls, and
  provider-side errors. All pages of the listing are recorded as a single
  `ListPolicies(filter)` request.
- `policy_doc_dict_to_sorted_str` (altimeter/aws/resource/util.py) is not part of this
  model. It is the parameter `canon`, and no property of it is claimed.
- A describe response's `Policy` is taken to always carry `Content`. The source would raise
  a KeyError when it does not, and the model does not capture that.
- Python exception types are not distinguished. For the base class, the source executes
  `raise NotImplemented(...)`, which raises a TypeError rather than the NotImplementedError
  evidently meant. Either way it fails before any request, which is what `PolicyTypeUnset`
  models. A missing "Arn" raises a KeyError, modelled as `MissingArn`. Neither error is
  caught or skipped in the source, so the model does not skip the summary either, even
  though per-item skipping is a documented design recommendation.
- ListPagePolicies, ListFromAws: the summaries are values. The source mutates each page's
  summary dictionary in place and stores that same object in the table. The model stores
  the updated copy, so aliasing between the page and the table is not captured.
- The class attributes `type_name`, `parallel_scan` and `schema`, the `account_id` and
  `region` parameters (unused by the listing), the wrapping of the table in
  `ListFromAWSResult`, and concurrency across accounts are outside this model.
