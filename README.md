# hdl-custom in Dafny

`hdl-custom.py` is a command line tool for administering Handle.Net (EPIC)
persistent identifiers on a handle server. It opens an authorized session and
runs one command. This project models the commands that do the bulk work:

- `download` (`download_handles`) pages through the handle listing of a prefix.
  It appends every handle to the output file with a one-based counter. It
  stops after the first page whose last counter reaches `totalCount`, and it
  pauses between pages.
- `handles` (`get_handles`) reads postfixes from a semicolon-separated file.
  It looks up the record of each row in the window `start .. start+count-1`
  and writes `line;record` lines.
- `rewrite-aliases` (`rewrite_aliases`) reads `alias;target` rows. It turns
  each alias in the window into an `HS_ALIAS` pointing at its target. It then
  reports the last line read and where to resume, or `n/a` at end of file.

The project also models the settings `parse_args` fills in by default, the
requests the tool sends and their `Authorization` headers, and the text forms
involved. That text covers decimal counters, `%Y%m%d` stamps, output lines and
`prefix/postfix` identifiers.

Modules:

- `Wrappers`: `Option`.
- `Text`: rendering and parsing of integers, dates, output lines and handle identifiers.
- `Events`: a run is a sequence of events. These are a page fetch, a handle
  fetch, an alias rewrite, an output line and a pause. Projections pick out
  one kind of event.
- `Download`: `download_handles` as a method with a loop. It is proved equal to
  `DownloadRun`, and the properties of the run are proved about that function.
- `Batch`: `get_handles` and `rewrite_aliases` as methods over the rows of the
  input file. Both are proved equal to `BatchRun` over the line window. The
  window, the pauses, the output and the resume report are proved about
  `BatchRun`.
- `Defaults`: the defaults of `parse_args`.
- `Requests`: the session, page, handle and alias requests. They are modelled
  as values, with parsers that read their parts back.

The handle server is an oracle: a function from page index to page, and from
postfix to record. Today's date is a parameter.

`rewrite_aliases` reports `next = start + count` whenever its `break` ends the
loop. This includes a file that has exactly `start + count` rows.
`Batch.RewriteAliasesReport` states this. The comment at `for ... else` hopes
for `n/a` in that case, but the code cannot see the end of file before the
`break`.

## Model

| member | source | states |
|---|---|---|
| Download.DownloadHandles | hdl-custom.py:193-222 | The events of one download are those of `DownloadRun`. In order: page fetches from `start`, each page's numbered lines, a pause after every page but the last fetched, and no fetch after the first exhausted page. |
| Download.WritePage | hdl-custom.py:202-205 | The inner loop writes one line per handle, in order, with counters `first`, `first+1`, ... |
| Download.LastPage | hdl-custom.py:198-216 | The last page fetched is the first page whose last counter reaches `totalCount`, or `stop - 1`. No earlier page is exhausted. |
| Download.FetchCount | hdl-custom.py:198-216 | A run fetches no page when `count <= 0`, otherwise between 1 and `count` pages. It fetches fewer than `count` only when the last page fetched is exhausted. |
| Download.DownloadPagesInOrder | hdl-custom.py:198-216 | The pages requested are exactly `start, start+1, ...`, `FetchCount` of them. |
| Download.DownloadSleeps | hdl-custom.py:218-220 | A run pauses one time fewer than the pages it fetches. There is no pause after the last page, whether it ended the range or was exhausted. |
| Download.DownloadListing | hdl-custom.py:202-205 | With the counters stripped, the output is exactly the handles the server listed on the fetched pages, in page order. |
| Download.DownloadRun | hdl-custom.py:198-220 | The events of a download. Its contract is stated by `DownloadHandles` (the loop equals it) and by the `Download*` lemmas below. |
| Download.DownloadLines | hdl-custom.py:200-205 | The output, line by line, is each fetched page's lines in page order. The handle at offset `j` of page `p` has counter `p*size + 1 + j`, so counters are consecutive within a page. |
| Download.DownloadCounters | hdl-custom.py:200-205 | The handle at offset `j` of fetched page `p` is written with counter `p*size + 1 + j`. |
| Download.DownloadCountersIncrease | hdl-custom.py:200-205 | When no page holds more than `size` handles, counters strictly increase across the whole output. |
| Download.PageCounters | hdl-custom.py:200-203 | A page of at most `size` handles uses counters above the previous page's range and within its own, increasing. |
| Download.PageEventsProject | hdl-custom.py:201-220 | One page gives one fetch, its numbered lines, and one pause exactly when it is not the last page. |
| Download.Server25Run | hdl-custom.py:198-220 | 25 handles in pages of 10, up to 5 pages: pages 0, 1 and 2 are fetched with 2 pauses. Together they write 10, 10 and 5 lines, 25 in all, and the last line has counter 25. |
| Download.Server20Run | hdl-custom.py:212-216 | Two full pages of 10 with `totalCount` 20: no request for an empty third page. |
| Batch.GetHandles | hdl-custom.py:246-273 | The events of one `get_handles` run are those of `BatchRun` over the rows' lookups. The `break` after a row, the skipped rows below `start`, and the pause unless at line `stop - 1` are all modelled. |
| Batch.RewriteAliases | hdl-custom.py:306-329 | The events of one `rewrite_aliases` run are those of `BatchRun`. `last` is the last line read. `next` is `start + count` when the `break` ended the loop and -1 (for/else) otherwise. |
| Batch.BatchRun | hdl-custom.py:258-271 | The events of a batch run over the line window. Its contract is stated by `GetHandles` and `RewriteAliases` (the loops equal it), and by `BatchCollect`, `BatchThrottle`, `WindowOfCount` and `WindowOfNoCount`. |
| Batch.HandleOps | hdl-custom.py:258-263 | One work item per row: fetch the first field's record, then write the row's line. `GetHandlesLookups`, `GetHandlesOutput` and `GetHandlesThrottle` state what a run of them does. |
| Batch.AliasOps | hdl-custom.py:313-316 | One rewrite per row, of its first field into an alias of its second. `RewriteAliasesWindow` and `RewriteAliasesThrottle` state what a run of them does. |
| Batch.StoppedByCount | hdl-custom.py:321-327 | Whether the `break` ended the loop rather than the end of the file. `RewriteAliasesReport` shows this holds exactly when the file has `start + count` rows. |
| Batch.ResumeMarker | hdl-custom.py:329 | How the final log line shows `next`: a line number, or `n/a` for -1 and below. `RewriteAliasesReport` states what it shows after a run. |
| Batch.RowsRead | hdl-custom.py:258-271 | The reader stops after row `stop - 1`, or at end of file, but never before row 0. |
| Batch.WindowOfCount | hdl-custom.py:259-271 | For `start >= 0` and `count >= 1`, the lines handled are those of `[start, start + count)` that the file has. |
| Batch.WindowOfNoCount | hdl-custom.py:259-271 | When `start <= 0` and the stop line `start + count` is 1 or less (a count of 0 or less, or a negative start), line 0 is handled and no other, because the `break` comes after the row. |
| Batch.BatchCollect | hdl-custom.py:258-271 | When every line yields one item, a run yields exactly the window's items in file order. |
| Batch.ProcessedSleeps | hdl-custom.py:265-267 | A window holds as many pauses as lines below `stop - 1`. |
| Batch.BatchThrottle | hdl-custom.py:265-267 | A run pauses after every handled line but line `start + count - 1`. It ends on a pause exactly when the file ends before that line. |
| Batch.GetHandlesLookups | hdl-custom.py:258-261 | `get_handles` looks up the first field of every row in the window, and no other, in file order. |
| Batch.GetHandlesOutput | hdl-custom.py:261-263 | `get_handles` writes `line;record` for every row in the window, in file order, with the 0-based line index. |
| Batch.GetHandlesThrottle | hdl-custom.py:265-267 | Pauses of `get_handles`: `count - 1` when the file reaches the window's end, else one after each handled line. |
| Batch.RewriteAliasesWindow | hdl-custom.py:313-316 | `rewrite_aliases` rewrites the (alias, target) pair of every row in the window, and no other, in file order. |
| Batch.RewriteAliasesThrottle | hdl-custom.py:317-319 | Pauses of `rewrite_aliases`, with the same counts as `get_handles`. |
| Batch.RewriteAliasesReport | hdl-custom.py:322-329 | The run resumes at `start + count` exactly when the file has that many rows, and otherwise shows `n/a`. The last line read is the window's last line. |
| Batch.RewriteAliasesResume | hdl-custom.py:309-329 | Running again from the reported `next` continues the rewrites exactly as one run over both windows would. |
| Batch.TwoAliasRows | hdl-custom.py:306-329 | Two rows, start 0, count 2: two rewrites with one pause between them, and `last` is 1. |
| Text.IntToString | hdl-custom.py:205 | `str(n)` is non-empty and starts with `-` exactly when `n` is negative. `IntToStringRoundTrip` reads it back. |
| Text.OutputLine | hdl-custom.py:205 | An output line ends in a line break. `OutputLineRoundTrip` reads the counter and text back. |
| Text.HandleId | hdl-custom.py:288 | `prefix/postfix` has its `/` right after the prefix. `HandleIdRoundTrip` splits it back. |
| Text.NatToString | hdl-custom.py:205 | A rendered counter is a non-empty run of digits with no leading zero. |
| Text.IntToStringRoundTrip | hdl-custom.py:205 | `str(n)` parses back to `n`, negative values included. |
| Text.IntToStringPlain | hdl-custom.py:168 | A rendered integer holds no `;`, no line break and no `&`. |
| Text.OutputLineRoundTrip | hdl-custom.py:205 | Splitting an output line at its first `;` gives back the counter and the text, whatever `;` the text holds. |
| Text.HandleIdRoundTrip | hdl-custom.py:288 | An identifier `prefix/postfix` with a `/`-free prefix splits back into its two parts. |
| Text.PadDigitsRoundTrip | hdl-custom.py:66-67 | Zero-padded fixed-width digits parse back to their value. |
| Defaults.ParseCommand | hdl-custom.py:24-26 | Only the five command names are accepted, and each maps to the command that has that name. |
| Defaults.CommandNameRoundTrip | hdl-custom.py:24-26 | Every command's name is accepted as that command. |
| Defaults.Stamp | hdl-custom.py:66-67 | `%Y%m%d` is eight digits. |
| Defaults.StampRoundTrip | hdl-custom.py:66-67 | The stamp reads back as the date. |
| Defaults.DatedName | hdl-custom.py:66-67 | `<command>-<yyyymmdd><ext>` is nine characters longer than the command name and extension together. `DatedNameRoundTrip` reads it back. |
| Defaults.Resolve | hdl-custom.py:63-70 | Resolving keeps the command, prefix and index. The `Resolve*` lemmas and `DefaultNamesDistinct` state the defaults it fills in. |
| Defaults.DatedNameRoundTrip | hdl-custom.py:66-67 | `<command>-<yyyymmdd><ext>` reads back, from the right, as the command and the date. |
| Defaults.ResolveStart | hdl-custom.py:69-70 | An explicit start, 0 included, is kept. Otherwise the start is 1 for `rewrite-aliases` and 0 for every other command. |
| Defaults.ResolveKeepsGivenNames | hdl-custom.py:63-67 | A non-empty certificate, key, input, output or log name is used as given. |
| Defaults.ResolveDefaultNames | hdl-custom.py:63-67 | An absent or empty name gets its default. The certificate and key are named after the prefix and user index, and the input after the command. The output and log are named after the command and today's date, and both read back. |
| Defaults.ResolvedNamesNonEmpty | hdl-custom.py:63-67 | Every resolved name is non-empty. |
| Defaults.ResolveIdempotent | hdl-custom.py:63-70 | Filling in defaults a second time, on any day, changes nothing. |
| Defaults.DefaultNamesDistinct | hdl-custom.py:63-67 | With the defaults, the input, output and log names are pairwise distinct for every command and date, and the certificate differs from the key. |
| Requests.Header | hdl-custom.py:281 | A header lookup finds nothing exactly when no header has that name. Otherwise it returns the value of the first header with that name. |
| Requests.ClientCertAuthorization | hdl-custom.py:125 | The client-certificate header. `ClientCertAuthorizationRoundTrip` reads it back. |
| Requests.SessionAuthorization | hdl-custom.py:142 | The session-only header. `SessionAuthorizationRoundTrip` reads it back. |
| Requests.ClientCertAuthorizationRoundTrip | hdl-custom.py:125 | The client-certificate header reads back as such, with its session id, whatever the id holds. |
| Requests.SessionAuthorizationRoundTrip | hdl-custom.py:142 | The session-only header never reads as a client-certificate header, and it gives back its session id. |
| Requests.CreateSessionRequest | hdl-custom.py:110 | POST to `/api/sessions` with no header. `SessionAuthorizations` states that it carries no authorization. |
| Requests.AuthorizeSessionRequest | hdl-custom.py:125-126 | PUT to `/api/sessions/this` with the client-certificate header. `SessionAuthorizations` states its scheme. |
| Requests.DeleteSessionRequest | hdl-custom.py:142-144 | DELETE of `/api/sessions/this` with the session header. `SessionAuthorizations` states its scheme. |
| Requests.PageRequest | hdl-custom.py:167-169 | GET of one page of the prefix's handles. `SessionAuthorizations` and `PageRequestAsks` state its scheme and what it asks for. |
| Requests.HandleRequest | hdl-custom.py:235-237 | GET of one handle record. `SessionAuthorizations` and `HandleRequestNames` state its scheme and the handle it names. |
| Requests.AliasRequest | hdl-custom.py:281-293 | PUT of one alias value. `SessionAuthorizations` and `AliasRequestContents` state its scheme, URL, headers and body. |
| Requests.PageUrl | hdl-custom.py:168 | The page URL. `PageUrlRoundTrip` reads it back. |
| Requests.HandleUrl | hdl-custom.py:236 | The handle URL. `HandleUrlRoundTrip` reads it back. |
| Requests.SessionAuthorizations | hdl-custom.py:110-169 | Session creation carries no authorization. Only the authorizing request uses the client-certificate scheme. Deleting the session, fetching a page, fetching a handle and rewriting an alias each name the session alone. |
| Requests.PageUrlRoundTrip | hdl-custom.py:168 | With a prefix free of `&`, the page URL reads back as the prefix, page and page size. |
| Requests.PageRequestAsks | hdl-custom.py:167-169 | A page request asks the server for the page and page size the tool meant. |
| Requests.HandleUrlRoundTrip | hdl-custom.py:236 | With a `/`-free prefix, a handle URL reads back as its prefix and postfix. |
| Requests.HandleRequestNames | hdl-custom.py:235-237 | A handle request names the handle `prefix/postfix`. |
| Requests.BodyRoundTrip | hdl-custom.py:282-291 | A `values` body decodes to exactly the values it was built from, in order. |
| Requests.AliasRequestContents | hdl-custom.py:281-293 | An alias rewrite is a PUT to the alias under `?index=various`, and it sends JSON. Its body holds exactly one value: index 1, type `HS_ALIAS`, format `string`, whose value splits back into the prefix and the target. |

## Left out

- HTTP, TLS and JSON decoding: every request is assumed to succeed. Server answers are oracles, pages arrive already parsed with `totalCount` as an integer, and failure paths (HTTP errors, bad JSON, a non-numeric `totalCount`) are not modelled.
- The actual sending of requests: `urlopen` and the SSL context with the certificate chain are not modelled. Requests are modelled as values only, and the byte rendering of `json.dumps` is not modelled.
- `start_session` file checks (`exit(1)` when the key or certificate is missing), `run` dispatch, the `KeyboardInterrupt` exit 130 and the final `delete_session`: control flow around the commands, outside the core.
- `count_handles` and the single `handle` command are not modelled as runs. Their requests (`PageRequest` with size 0, `HandleRequest`) are modelled.
- Logging, `setup_logger`, `sleep` durations and the float `--throttle`, and the clock in `get_page_of_handles`. A pause is an event.
- The `csv` reader's quoting: rows arrive already split into fields.
- Batch.GetHandles: requires every row read to have at least one field. A shorter row makes the destructuring `[postfix, *_]` raise, and that error path is not modelled.
- Batch.RewriteAliases: requires every row read to have at least two fields, for the same reason.
- Batch.BatchThrottle: stated for `start >= 0` and `count >= 1` only. When the stop line is 1 or less, `Batch.WindowOfNoCount` gives the window: line 0 alone.
- Batch.GetHandlesThrottle: stated for `start >= 0` and `count >= 1` only, as for `BatchThrottle`.
- Batch.RewriteAliasesThrottle: stated for `start >= 0` and `count >= 1` only, as for `BatchThrottle`.
- Batch.WindowOfCount: stated for `start >= 0` and `count >= 1` only. `WindowLo` and `WindowHi` define every case.
- Records are rendered by `get_handle` (a Python dict printed into the line). They are modelled as an oracle from postfix to text.
- Output files opened in append mode are modelled as the sequence of lines written by one run, not as the file's contents.
- Defaults.Stamp: requires a year between 1000 and 9999. `%Y` renders other years with fewer or more digits, and those are not modelled.
- Argument parsing by `argparse`: types, `required` options and help text. Only the defaults filled in afterwards are modelled. `--server`, `--count`, `--size` and `--throttle` keep their argparse defaults and are plain parameters.
