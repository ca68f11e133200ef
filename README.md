# Account finder (sfp_accounts) — a Dafny model

This project models the account-probing core of SpiderFoot's `sfp_accounts` plugin. Given a
candidate username, the plugin probes every site of a catalog (the WhatsMyName list). For each
site it decides from the site's HTTP response whether an account with that name exists. Before
the first lookup it calibrates: sites that "find" a random nonexistent name are distrusted and
removed from the catalog, and the distrust list is cached.

The model is sequential. The thread pool of `checkSites` becomes a loop over the catalog in
order. The network, the cache, the random generator, the dictionaries and the domain-keyword
helper become inputs. Timing is dropped. Emitted events become a returned sequence.

Modules:

- `Text` (text.dfy): the Python string operations the plugin uses, over `seq<char>`. These are
  `in` on strings, `lower()` (ASCII only), `split`/`join`, `split(sep)[0]`,
  `format(account=…)` and `replace`.
- `Seqs` (seqs.dfy): duplicate-freedom, subsequences and list comprehensions (`Filter`).
- `Catalog` (catalog.dfy): the site record, the usable-site filter of `setup` and the
  name filter used by calibration.
- `Evaluator` (evaluator.dfy): the match decision of `checkSite` (`Judge`), the outcome one
  probe records (`Probe`), the label, and recovering a site name from a label.
- `Results` (results.dfy): the result dict `siteResults`. It is modelled as an
  insertion-ordered map (`Dict`), because line 192 iterates the dict in insertion order.
  `Round` is the dict after one sequential probing round; `TrueKeys` is the list of found labels.
- `Distrust` (distrust.dfy): reading the cached distrust text (three states), the two
  `delsites` loops, and the catalog after calibration (`Calibrated`).
- `Accounts` (accounts.dfy): the plugin as a class `AccountFinder`. Its fields are `sites`,
  `results`, `reportedUsers`, `siteResults`, `errorState` and `distrustedChecked`. Its methods are
  `setup` (constructor), `CheckSite`, `CheckSites`, `Calibrate`, `ReportUsers` and `HandleEvent`.
- `Scenario` (scenario.dfy): a concrete round over three sites, of which only one hosts `bob`.

Behaviours of the code a reader might not expect, which the model follows:

- A site whose `account_existence_string` is missing is not "not found". Evaluating
  `None in content` raises `TypeError`, the worker swallows it, and nothing is recorded for the
  site (`Verdict.Raised`). The `Raised` outcome is reached only after the empty-body and
  status-code checks have passed.
- Cached distrust text that is the empty string counts as a cache miss (`if content:`), so
  calibration runs again.
- There is no separate calibration error. `errorState` is set only by `setup` (catalog
  unreachable or unparsable), and it makes `handleEvent` return before calibration.
- The distrust list is a list of names, matched by equality of the whole line.

## Model

| member | source | states |
|---|---|---|
| Text.ContainsIffOccurs | modules/sfp_accounts.py:126 | `needle in hay` holds exactly when the needle occurs at some index of the text |
| Text.ContainsLower | modules/sfp_accounts.py:131-132 | a name that appears verbatim in the body also appears after both are lower-cased |
| Text.PrefixBefore | modules/sfp_accounts.py:141 | `s.split(pat)[0]` is a prefix of `s` with no occurrence of `pat` starting inside it, and it is either all of `s` or directly followed by `pat` |
| Text.JoinSplit | modules/sfp_accounts.py:223 | `split("\n")` loses nothing: joining the pieces gives back the text |
| Text.SplitJoin | modules/sfp_accounts.py:223 | pieces free of the separator, once joined and split again, come back unchanged |
| Text.FormatOne | modules/sfp_accounts.py:105 | a check template with one `{account}` and no other `{` or `}` yields the template with the username substituted |
| Text.ReplaceChar | modules/sfp_accounts.py:247 | `replace(c, rep)` with a one-character `rep` puts `rep` wherever `c` was and keeps every other character; with `rep` empty it drops every `c` and keeps the rest in order |
| Catalog.ValidSites | modules/sfp_accounts.py:89 | `setup` keeps exactly the catalog entries marked valid, in catalog order |
| Catalog.Without | modules/sfp_accounts.py:227 | filtering keeps exactly the sites whose name is not listed, in their original order and unchanged |
| Catalog.WithoutNone | modules/sfp_accounts.py:227 | filtering with an empty name list keeps the whole catalog |
| Evaluator.JudgeFoundIff | modules/sfp_accounts.py:116-148 | a site reports the account found exactly when the body is non-empty, the status code matches, the expected string is present, the name is mentioned (when required) and the dot rule does not fire |
| Evaluator.JudgeOrder | modules/sfp_accounts.py:116-136 | the checks run in source order and stop at the first failure: empty body first, then status code, then expected string, then name mention |
| Evaluator.NamePolicyOff | modules/sfp_accounts.py:131-136 | with `musthavename` off the name check never rejects, and it changes nothing else |
| Evaluator.NoDotNoClash | modules/sfp_accounts.py:140 | a username without `.` is never rejected by the dot rule |
| Evaluator.DotRuleOverrides | modules/sfp_accounts.py:138-145 | when every earlier check passes, the dot rule still rejects a body holding the part before the first dot followed by `<` |
| Evaluator.DotRuleRejects | modules/sfp_accounts.py:138-145 | `bob.abc` against a page containing `bob<` is not found |
| Evaluator.DotRuleAccepts | modules/sfp_accounts.py:138-148 | `bob.abc` against a page naming it verbatim, with no `bob<` or `bob"`, is found |
| Evaluator.SiteNameOfLabel | modules/sfp_accounts.py:106 | splitting a label at `" (Category:"` gives back the site name, for names without `(` |
| Evaluator.NoCheckUriNoOutcome | modules/sfp_accounts.py:102-103 | a site without `check_uri` produces no outcome |
| Evaluator.ProbeLabel | modules/sfp_accounts.py:105-148 | a recorded outcome is keyed by `name (Category: category)\n<SFURL>url</SFURL>` for the substituted URL, and it is true exactly when all checks pass |
| Results.Dict.Put | modules/sfp_accounts.py:147-148 | a dict assignment keeps the dict well formed: a new key is appended to the order, an existing key keeps its place |
| Results.TrueKeys | modules/sfp_accounts.py:192 | the found list has no duplicates and holds exactly the keys mapped to `True` |
| Results.RoundSkipsUnchecked | modules/sfp_accounts.py:102-103 | probing a site without `check_uri` leaves the result map as it was |
| Results.FoldKeys | modules/sfp_accounts.py:165-186 | the result map's keys are exactly the labels some probe wrote |
| Results.FoldEntries | modules/sfp_accounts.py:165-186 | each key of the result map holds the outcome of the last probe that wrote it |
| Results.ScanSound | modules/sfp_accounts.py:192 | every returned label is the label of a probed site that passed all checks |
| Results.ScanComplete | modules/sfp_accounts.py:192 | when labels are distinct, a site's label is returned exactly when its own probe found the account |
| Distrust.NonEmptyLines | modules/sfp_accounts.py:223-226 | the parsed distrust list holds exactly the non-empty lines of the cached text |
| Distrust.DistrustedFromCache | modules/sfp_accounts.py:222-226 | the line-collecting loop yields the non-empty lines of the cached text, in order |
| Distrust.DistrustedFromLabels | modules/sfp_accounts.py:233-237 | the name-collecting loop yields, for each found label, the text before `" (Category:"` |
| Distrust.CacheStates | modules/sfp_accounts.py:219-226 | absent or empty cache text means calibration must run; `"None"` means nothing is distrusted; any other text is its non-empty lines |
| Distrust.NoneMarkerKeepsSites | modules/sfp_accounts.py:220-221 | cached `"None"` leaves the catalog unchanged |
| Distrust.CalibratedKeepsOrder | modules/sfp_accounts.py:227 | calibration only removes sites: the remaining sites keep their order and values |
| Distrust.CachedListRemoves | modules/sfp_accounts.py:220-227 | a cache hit removes exactly the sites whose name is a non-empty line of the cached text |
| Distrust.ProbedListRemoves | modules/sfp_accounts.py:228-238 | a calibration round removes exactly the sites named by a label it found |
| Distrust.DistrustListRoundTrip | modules/sfp_accounts.py:219-242 | names written one per line are read back as the same distrust list |
| Accounts.DerivedUsers | modules/sfp_accounts.py:246-263 | a username event yields its data; an email yields the lower-cased text before its first `@`; a human name yields the lower-cased name with spaces removed and with spaces turned into dots; a domain yields its keyword, or ends handling when there is none; any other event yields nothing |
| Accounts.EmailUser | modules/sfp_accounts.py:258-260 | an address `local@domain` with no `@` in `local` yields exactly the lower-cased `local` |
| Accounts.HumanNameUsers | modules/sfp_accounts.py:246-249 | a human name yields the lower-cased name without its spaces and the lower-cased name with each space replaced by a dot; for a name without spaces both are the lower-cased name |
| Accounts.NewUsersSpec | modules/sfp_accounts.py:265-281 | a user is reported exactly when it passes the generic, name and word filters, was not reported before and differs from the event data; the reported list stays free of duplicates |
| Accounts.AccountFinder.constructor | modules/sfp_accounts.py:59-93 | setup starts with empty state and the valid catalog entries, or in the error state when the catalog is missing |
| Accounts.AccountFinder.CheckSite | modules/sfp_accounts.py:101-148 | one probe writes its outcome under its label, or nothing |
| Accounts.AccountFinder.CheckSites | modules/sfp_accounts.py:150-192 | the round starts from an empty result map, probes every site, and returns the found labels |
| Accounts.AccountFinder.Calibrate | modules/sfp_accounts.py:219-242 | the catalog is pruned by the cached list on a hit, or by a calibration round on a miss, which also produces the cache write |
| Accounts.AccountFinder.ReportUsers | modules/sfp_accounts.py:265-281 | reported users are appended to `reportedUsers`, which only grows and has no duplicates |
| Accounts.AccountFinder.HandleEvent | modules/sfp_accounts.py:194-296 | error state, own non-username events and repeated data change nothing; otherwise the data is remembered, calibration runs once, new users are reported, and username events emit the found accounts |
| Scenario.ScenarioScan | modules/sfp_accounts.py:150-192 | of three sites with a profile page, a 404 and an unrelated page, scanning `bob` returns exactly the first site's label |

## Left out

- Threads, the queue, the lock and the worker join (lines 151-186). The model probes sites one
  after another in catalog order. Concurrent writes to distinct keys give the same label-to-outcome
  map, and for duplicate labels the model's last writer is the later site in the catalog.
- The order of the found labels. In the source, `siteResults` keeps keys in the order in which
  probes finish, which depends on thread scheduling. The model's `Dict.order` is catalog order.
  So the order of the returned labels and of the emitted ACCOUNT_EXTERNAL_OWNED events is
  catalog order in the model. In the source it can be any order.
- `fetchUrl`, `cacheGet`/`cachePut`, `json.loads` and the catalog download. Responses come
  from a pure function `fetch` from URL to response, the same one for calibration and lookups.
  The cached text and the parsed catalog are parameters.
- The encoding `cachePut` uses for a Python list. `CacheWrite` records what is handed to the
  cache. `DistrustListRoundTrip` assumes a one-name-per-line encoding.
- Timing and rate statistics (lines 162, 188-190) and all debug logging.
- `random.SystemRandom` generation of the calibration name. It is a parameter (`randUser`).
- `notifyListeners` and `SpiderFootEvent` construction. Emitted events are returned as a
  sequence. `domainKeyword` is a parameter. `dictnames`/`dictwords` are sets inside `Options`.
- Python's Unicode `lower()`. `Lower` lower-cases ASCII letters only.
- `str.format` escapes (`{{`, `}}`), a lone `}` and fields other than `{account}`. For a lone
  `}` or another field Python raises and the site records nothing; `Format` copies the text instead.
- Exceptions other than the `TypeError` for a missing `account_existence_string`: a missing
  `name`, `category` or `valid` key, or a failing fetch.
- The order in which `for user in set(users)` visits users. The model visits them in derivation
  order, skipping repeats; the set of reported users and the emitted events' contents are the
  same, only their order may differ.
- The `userfromemail` option. The source never reads it.
- The optional `sites` argument of `checkSites`. No caller passes it, so the model always probes
  the plugin's own catalog.
- `_maxthreads`. The model always probes every site. In the source a value of 0 or less starts
  no worker, so nothing is probed and the round returns no labels.
- Evaluator.SiteNameOfLabel: proved only for site names without `(`. A name containing
  `" (Category:"` would be cut short, and the source makes no promise for it.
- Results.ScanComplete: assumes the probed sites' labels are distinct. With duplicates, the
  later site's outcome decides, as `FoldEntries` states.
