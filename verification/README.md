# rlm_rest decision logic, modelled in Dafny

FreeRADIUS's `rlm_rest` module lets the authorize, authenticate, accounting
and post-auth phases of request processing delegate their decision to an
HTTP API through libcurl. This project models the module's pure decision
logic and proves properties of it:

- **Classifier** (`classifier.dfy`): the two status tables the four result
  callbacks use to turn an HTTP status and the body decoder's answer into a
  module return code (`rlm_rcode_t`, in `rcodes.dfy`), and the rule that
  decides whether the error reporter runs.
- **Lifecycle** (`lifecycle.dfy`): the entry points and result callbacks as
  functions over an abstract connection pool. The pool is the set of leased
  handles plus a log of lease, cleanup and release events. An entry point
  either answers at once or returns a `Yield` value holding the handle. The
  matching result callback cleans the handle up and then releases it.
- **Resolver** (`resolver.dfy`): `parse_sub_section` and `mod_instantiate`,
  which validate each phase's settings and resolve its strings into the
  method, auth type and body type enumerations (`http.dfy`). The lookup
  tables are parameters; they are searched as the server's name/number
  tables are (`name_table.dfy`): front to back, with ASCII case ignored.

The main results:
- every invocation releases each handle it leases exactly once, and cleans
  it up first (`Lifecycle.InvocationReleasesOnce`);
- invocations keep the pool balanced (`Lifecycle.InvocationKeepsPoolInvariants`);
- each return code is characterised by exactly the statuses and decoder
  answers that produce it, in both tables;
- resolution succeeds exactly when the settings pass every gate, and a
  resolved section satisfies `Resolver.Resolved`.

All four result callbacks take their settings from the authenticate
section: certificate extraction and body decoding both use it, whichever
phase resumes. The model keeps this behaviour
(`Lifecycle.ResultsReadAuthenticateSection`).

Three behaviours of the status handling are easy to miss:
- a status below 200, or any non-2xx status below 500 other than 401, 403,
  404 and 410, gives invalid;
- reject never runs the error reporter;
- a failed status-attribute update gives fail without running the error
  reporter or the decoder.

## Model

| member | source | states |
|---|---|---|
| Classifier.AuthDecision | src/modules/rlm_rest/rlm_rest.c:373-416 | for each return code, exactly which statuses and decoder answers produce it: 404/410 not-found, 403 user-locked, 401 reject unless the decode fails, 204 ok undecoded, other 2xx by decoder, other codes below 500 invalid, 500 and up fail; the decoder is consulted only for 401 and non-204 2xx |
| Classifier.AcctDecision | src/modules/rlm_rest/rlm_rest.c:614-626 | 500 and up fail, 204 ok undecoded, other 2xx by decoder, everything else (401, 403, 404 and 410 included) invalid; only ok, updated, invalid and fail are possible |
| Classifier.Classify | src/modules/rlm_rest/rlm_rest.c:368-427 | a failed status update gives fail with no decode and no error report; otherwise the table decides, and the error reporter runs exactly for invalid, fail and (finer table only) user-locked, never for reject |
| Classifier.TablesAgreeElsewhere | src/modules/rlm_rest/rlm_rest.c:692-704 | the two tables agree on every status other than 401, 403, 404 and 410 |
| Classifier.TablesDifferOnAuthCodes | src/modules/rlm_rest/rlm_rest.c:374-395 | on 401, 403, 404 and 410 the coarse table says invalid while the finer one says not-found, user-locked, reject or fail |
| Classifier.VerdictIgnoresUnusedDecoder | src/modules/rlm_rest/rlm_rest.c:397-399 | when the decoder is not consulted (204, for instance), its answer cannot change the verdict |
| Lifecycle.Perform | src/modules/rlm_rest/rlm_rest.c:133-169 | starting an exchange succeeds exactly when the URI is non-empty and configuration and enqueueing do not fail; a failure names the first failing step |
| Lifecycle.Dispatch | src/modules/rlm_rest/rlm_rest.c:454-465 | a failed lease fails with the pool untouched; a failed start fails after leasing, cleaning up and releasing the handle; otherwise it yields holding the leased handle |
| Lifecycle.Authorize | src/modules/rlm_rest/rlm_rest.c:443-466 | an unconfigured phase answers no-op and leases nothing; otherwise it fails without holding a handle or yields holding one, with a cancel action registered |
| Lifecycle.Authenticate | src/modules/rlm_rest/rlm_rest.c:553-594 | no-op when unconfigured; invalid with no lease when User-Name is missing or the password is missing or not a User-Password; yields only with both present and no cancel action |
| Lifecycle.Accounting | src/modules/rlm_rest/rlm_rest.c:649-672 | no-op when unconfigured; fail without a held handle, or a yield holding one with no cancel action |
| Lifecycle.PostAuth | src/modules/rlm_rest/rlm_rest.c:727-751 | no-op when unconfigured; fail without a held handle, or a yield holding one with no cancel action |
| Lifecycle.AuthorizeResult | src/modules/rlm_rest/rlm_rest.c:355-435 | the handle is cleaned up then released; certificate extraction follows the authenticate section; the verdict (code, whether the decoder ran, whether the error reporter ran) is the finer table's classification with the authenticate section's decoder answer |
| Lifecycle.AuthenticateResult | src/modules/rlm_rest/rlm_rest.c:468-548 | the handle is cleaned up then released; the verdict (code, decoder run, error reporter run) is the finer table's classification, decoding with the authenticate section |
| Lifecycle.AccountingResult | src/modules/rlm_rest/rlm_rest.c:596-644 | the handle is cleaned up then released; the verdict (code, decoder run, error reporter run) is the coarse table's classification, decoding with the authenticate section |
| Lifecycle.PostAuthResult | src/modules/rlm_rest/rlm_rest.c:674-722 | the handle is cleaned up then released; the verdict (code, decoder run, error reporter run) is the coarse table's classification, decoding with the authenticate section |
| Lifecycle.LeaseKeepsBalance | src/modules/rlm_rest/rlm_rest.c:454-455 | leasing a handle not already out keeps leases and releases balanced and keeps every release after its cleanup |
| Lifecycle.ReleaseKeepsBalance | src/modules/rlm_rest/rlm_rest.c:429-432 | cleaning up and releasing a leased handle keeps leases and releases balanced and keeps every release after its cleanup |
| Lifecycle.InvocationReleasesOnce | src/modules/rlm_rest/rlm_rest.c:443-466 | a whole invocation either leaves the pool untouched or leases one handle, cleans it up and releases it exactly once, and ends holding no extra handle |
| Lifecycle.InvocationKeepsPoolInvariants | src/modules/rlm_rest/rlm_rest.c:638-672 | on every path, invocations keep leases and releases balanced, with every release right after its handle's cleanup |
| Lifecycle.GuardsLeaseNothing | src/modules/rlm_rest/rlm_rest.c:565-582 | an unconfigured phase answers no-op, authentication without credentials answers invalid, and a failed lease answers fail, all with the pool untouched |
| Lifecycle.YieldNamesOwnCallback | src/modules/rlm_rest/rlm_rest.c:465 | a yield resumes with the yielding component's own result callback, and only authorize registers a cancel action |
| Lifecycle.CodesEachComponentCanReturn | src/modules/rlm_rest/rlm_rest.c:692-704 | accounting and post-auth never answer not-found, user-locked or reject; nothing answers handled |
| Lifecycle.ResultsReadAuthenticateSection | src/modules/rlm_rest/rlm_rest.c:596-601 | a result callback depends on the instance only through its authenticate section |
| NameTable.Str2Int | src/modules/rlm_rest/rlm_rest.c:786 | a name lookup gives the value of the first entry whose name matches ignoring ASCII case, or the default when none does |
| NameTable.Int2Str | src/modules/rlm_rest/rlm_rest.c:849 | a value lookup gives the name of the first entry carrying the value, or the default when none does |
| NameTable.NameRoundTrip | src/modules/rlm_rest/rlm_rest.c:847-850 | in a table without repeated names, looking a value's name back up gives the value |
| Resolver.Apply | src/modules/rlm_rest/rlm_rest.c:73-89 | the "xlat" item list leaves the uri, method, body, data and force_to settings at their preset values; credentials come from the subsection |
| Resolver.LookupBodyType | src/modules/rlm_rest/rlm_rest.c:808-811 | a body type name is looked up among canonical names first and among content types only if that misses; a miss in both gives unknown |
| Resolver.ResolveBody | src/modules/rlm_rest/rlm_rest.c:807-851 | without data: success exactly when the name resolves to a type not tagged unsupported, invalid or unavailable, with the matching error for each case; with data: body is the template type, and a canonical body name is rewritten to the name of the first content-type entry carrying its type, or stays as written when there is none |
| Resolver.ResolveForceTo | src/modules/rlm_rest/rlm_rest.c:853-878 | an absent forced type changes nothing; otherwise success exactly when the name resolves to a type not tagged unsupported or invalid, with the matching error for each case |
| Resolver.Resolve | src/modules/rlm_rest/rlm_rest.c:777-880 | success exactly when the settings pass every gate, and the result is then a resolved section whose auth and method are the table lookups of their strings, whose body and force_to are the body and forced-type resolutions, and whose other settings are unchanged; unpaired credentials, an unknown auth type, an unsupported auth type, a body error and a force_to error are reported in that order; an unrecognised method gives the custom verb |
| Resolver.ParseSubSection | src/modules/rlm_rest/rlm_rest.c:753-772 | an absent subsection leaves the phase unnamed without error; a malformed one leaves it unnamed with an error; a present one names the phase and succeeds exactly when its settings are acceptable |
| Resolver.ParseNth | src/modules/rlm_rest/rlm_rest.c:961-974 | a subsection that parses is configured exactly when it is present, and is then resolved |
| Resolver.ParseFrom | src/modules/rlm_rest/rlm_rest.c:961-977 | parsing succeeds exactly when every remaining subsection parses; a failure names the first subsection that failed, with its error |
| Resolver.Instantiate | src/modules/rlm_rest/rlm_rest.c:949-980 | instantiation parses xlat, authorize, authenticate, accounting and post-auth in order, fails at the first failure with that subsection's name, and on success each of the instance's five sections is exactly its parsed subsection, configured exactly when present and then resolved |
| Resolver.XlatDefaults | src/modules/rlm_rest/rlm_rest.c:953-962 | the xlat section always sends GET with the form content type and reads plain responses; when absent it stays unnamed with no body |
| Resolver.CustomBodyContentType | src/modules/rlm_rest/rlm_rest.c:842-851 | with a data template, the rewritten body string maps back to the same body type in the content-type table |
| Resolver.UnavailableFatalOnlyForBody | src/modules/rlm_rest/rlm_rest.c:829-832 | a type unavailable in this build is an error for the request body but accepted as a forced response type |
| Resolver.MethodNeverRejected | src/modules/rlm_rest/rlm_rest.c:798 | the method name never decides whether resolution succeeds or which error it reports |

## Left out

- libcurl I/O and multiplexing (`rest_io_request_enqueue`, `rest_io_init`, `rest_io_action`), global and per-thread set-up and tear-down (`mod_load`, `mod_unload`, `mod_thread_instantiate`, `mod_thread_detach`) and `mod_bootstrap`: these are foreign transport and process lifecycle code with no decision logic.
- Yield scheduling and cancellation: a yield is a returned value naming the handle, the result callback and whether a cancel action was registered. What `rest_io_action` does on cancellation is not part of this model.
- Connection pool internals: a lease is a parameter (`None` for a failed `fr_connection_get`). The pool is assumed never to hand out a handle that is already leased.
- `rest_uri_build`, `rest_request_config`, `rest_response_decode`, `rest_response_certinfo`, `rest_response_error` and `rest_request_cleanup` are defined outside `rlm_rest.c`. Only their answers are modelled (URI length, status values, decoder count), or the fact that they run. The credentials that authenticate forwards to the request configuration are not modelled.
- `rlm_rest_status_update`: only its success or failure.
- The configuration parser (`cf_section_parse` with the item tables): a subsection is given already read, as items or as malformed. The partly filled section a parse failure leaves behind is not modelled. The timeout is a whole number of milliseconds.
- The server's token library that implements name lookups is not part of this model. The model follows its front-to-back search with ASCII case ignored.
- The lookup tables and the body-type support array are defined outside `rlm_rest.c`. They are parameters. The enumerations follow the module's header.
- Resolver.Instantiate: returns only the failing subsection and its error on failure, not the partly parsed instance, which instantiation discards.
- The disabled (`#if 0`) xlat code: it is never compiled.
