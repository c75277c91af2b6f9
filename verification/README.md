# ecmcli router commands, modelled in Dafny

ecmcli is a command-line client for Cradlepoint's ECM service. This project
models the client-side logic of two of its command files.

- `ecmcli/commands/routers.py`:
  - the printer's `group_name`;
  - the `clients` command, which keeps the online routers, tags every LAN
    client with its router's name, and joins DHCP hostnames, WiFi
    statistics and the hardware vendor from the MAC-prefix table;
  - the body that `edit` sends;
  - the confirm-or-force filter of `delete`.
- `ecmcli/commands/reboot.py`: router selection, and the sequence of
  confirmations, messages and reboot requests.

The ECM service is an oracle.

- `get_by_id_or_name('routers', x)` is a function `Resolver` from an
  identifier to a router or an error.
- `get_pager('routers')` is a given sequence of routers.
- Each remote-status pager is a function from the `id__in` argument to a
  sequence of per-router responses.

Interactive confirmation is a function `answers: nat -> bool` from the
number of the prompt to the user's answer. Whatever a command does is
recorded as a log of events:

- `Fetch`: an identifier resolved;
- `Poll`: a remote-status query;
- `Prompt`: a confirmation question;
- `Say`: a printed line;
- `Send`: a `put` or `delete`.

The contracts state the whole log and its projections. The whole log is
given by reference definitions: `Reboot.Handled` and
`RoutersDelete.DeletedLog` join the per-router blocks in order. The
projections are given by facts such as "`Requests(log)` is the
order-preserving filter of the routers by force-or-confirmed".

Modules:

- `Outcomes`: `Option`, `Result` and the errors a command can raise.
- `Seqs`: prefixes and element-wise mapping of sequences.
- `Text`: `str.split` and `join`, and decimal rendering.
- `Hex`: `int(s, 16)` and hex formatting.
- `Api`: records, requests, the event log, resolution and the confirm-or-force filter.
- `Selection`: choosing the routers a command acts on, by identifier or from the listing.
- `Joins`: Python's last-pair-wins dict building, against the reference definition `Last`.
- `RoutersPrinter`: the group column.
- `MacVendor`: the vendor lookup.
- `RoutersClients`: the `clients` command.
- `RoutersEdit`, `RoutersDelete` and `Reboot`: the corresponding commands.

Router ids are strings, as `','.join(ids)` needs. Remote-status responses
carry integer ids, and the model renders them with `str()`
(`Text.DecimalString`).

Two resolution orders are modelled.

- `reboot` and `clients` resolve all identifiers first, in a list
  comprehension. A failing identifier therefore ends the command before any
  prompt or request.
- `delete` resolves inside its loop. A failing identifier therefore ends the
  command after the earlier routers were already prompted for and deleted.
  `RoutersDelete.DeleteResolved` runs that loop over the identifiers before
  the first failure (`Api.Resolutions`), and `RoutersDelete.Delete` then
  adds the failing identifier's fetch and error. The events come out in the
  same order as in the source's single loop.

`edit` is modelled as written, but `Routers.__init__`
(ecmcli/commands/routers.py:369-377) does not register it among the
sub-commands. So `routers edit` cannot be reached from the command line.

## Model

| member | source | states |
|---|---|---|
| `RoutersPrinter.GroupName` | ecmcli/commands/routers.py:95-104 | Empty or missing group gives ''. A URN gives `<id:…>` with no '/' inside, and a URN without '/' raises IndexError. An expanded group gives its `name`, and a mapping without one raises KeyError. |
| `RoutersPrinter.GroupNameOfUrn` | ecmcli/commands/routers.py:101-102 | For a URN such as `/api/v1/groups/5/`, the name is `<id:` + the piece between the last two slashes + `>`. |
| `Text.Split` | ecmcli/commands/routers.py:102 | `str.split(sep)`: at least one piece, and no piece contains the separator. |
| `Text.JoinSplit` | ecmcli/commands/routers.py:302 | Joining the pieces of a split with the separator gives back the original string. |
| `Text.SplitHasTwoPieces` | ecmcli/commands/routers.py:102 | A split has a second-to-last piece exactly when the separator occurs, which is when `rsplit('/')[-2]` does not raise. |
| `Hex.ParseHex` | ecmcli/commands/routers.py:302 | `int(s, 16)` succeeds exactly on a non-empty run of hex digits, with a value below 16^len. Otherwise it raises ValueError carrying the text. |
| `Hex.HexRoundTrip` | ecmcli/commands/routers.py:302 | Parsing the fixed-width hex rendering of a number gives the number back. |
| `MacVendor.MacPrefix` | ecmcli/commands/routers.py:302 | The prefix is the hex value of the first three colon-separated pieces run together. It fails with ValueError exactly when that text is not hex. |
| `MacVendor.MacPrefixOfFormatted` | ecmcli/commands/routers.py:302 | For a MAC written as lower-case two-hex-digit octets, the prefix is the first three octets as one big-endian number, below 2^24. |
| `MacVendor.MacLookupOfFormatted` | ecmcli/commands/routers.py:301-307 | For a MAC written as lower-case two-hex-digit octets, the lookup succeeds and gives the table name of the first three octets read as one number, after the fallback. |
| `MacVendor.VendorKey` | ecmcli/commands/routers.py:303-306 | The key is masked to 16 bits exactly when bit 0x20000 is set and the prefix is not in the table. The masked key is below 2^16 and keeps the low 16 bits. |
| `MacVendor.VendorName` | ecmcli/commands/routers.py:303-307 | A prefix in the table gives its entry. A locally administered prefix that is absent falls back to its low 16 bits. A missing key gives None. |
| `MacVendor.MacLookup` | ecmcli/commands/routers.py:301-307 | The lookup fails exactly when the prefix does not parse. Otherwise it is the table name of the form asked for, or None. |
| `MacVendor.MacLookupShort` | ecmcli/commands/routers.py:295-296 | `mac_lookup(info, 0)`: the short vendor name. `MacVendor.MacLookup` and `MacVendor.ShortAndLongAgree` describe it. |
| `MacVendor.MacLookupLong` | ecmcli/commands/routers.py:298-299 | `mac_lookup(info, 1)`: the long vendor name. `MacVendor.MacLookup` and `MacVendor.ShortAndLongAgree` describe it. |
| `MacVendor.ShortAndLongAgree` | ecmcli/commands/routers.py:295-299 | Index 0 and index 1 fail together and find a vendor together, and both come from the same table entry. |
| `MacVendor.LocallyAdministeredFallsBack` | ecmcli/commands/routers.py:303-307 | If octet 0 has bit 0x02 set and the prefix is absent, the lookup equals the lookup with the first octet zeroed. |
| `MacVendor.FallbackOnPrefix` | ecmcli/commands/routers.py:303-307 | A prefix with bit 0x20000 set that is not in the table gets the name of its low 16 bits. |
| `MacVendor.UniversalAddressLookedUpDirectly` | ecmcli/commands/routers.py:303-307 | Without the locally-administered bit, the unmasked prefix is looked up, and a missing prefix gives None. |
| `Joins.Last` | ecmcli/commands/routers.py:315-316 | The reference for dict building: the last entry with a key, with no later entry carrying that key. It is None exactly when no entry has the key. |
| `Joins.Assoc` | ecmcli/commands/routers.py:315-316 | `dict(pairs)`, built by a left-to-right fold in which a later pair overwrites an earlier one. `Joins.AssocIsLast` describes it against `Last`. |
| `Joins.PagedAssoc` | ecmcli/commands/routers.py:310-316 | The getters' `d.update(...)` loop over the successful pages in order. `Joins.PagedAssocIsLast` describes it against `Last`. |
| `Joins.AssocIsLast` | ecmcli/commands/routers.py:315-316 | `dict(pairs)` holds exactly the keys of the pairs, each with the value of its last pair. |
| `Joins.LastOfConcat` | ecmcli/commands/routers.py:315 | `d.update(page)`: a key in the later part wins, and otherwise the earlier part decides. |
| `Joins.PagedAssocIsLast` | ecmcli/commands/routers.py:310-316 | Merging the successful pages in order gives, per key, the value of the last entry over all successful pages. |
| `RoutersClients.Online` | ecmcli/commands/routers.py:334-335 | Keeps exactly the routers whose state is 'online'. |
| `RoutersClients.OnlineConcat` | ecmcli/commands/routers.py:334-335 | The filter preserves order: the online routers of a concatenation are those of the first part, then those of the second. |
| `RoutersClients.OnlineSingle` | ecmcli/commands/routers.py:334-335 | One router is kept exactly when its state is 'online'. |
| `RoutersClients.OnlineNames` | ecmcli/commands/routers.py:334-335 | `ids`: the id-to-name dict of the online routers. `RoutersClients.OnlineNamesAreOnlineRouters` and `RoutersClients.NoOnlineMeansEmpty` describe it. |
| `RoutersClients.OnlineNamesAreOnlineRouters` | ecmcli/commands/routers.py:334-335 | `ids` has a key exactly for the ids of online routers. Its value is the name of the last online router with that id. |
| `RoutersClients.NoOnlineMeansEmpty` | ecmcli/commands/routers.py:334-337 | `ids` is empty exactly when no chosen router is online. |
| `RoutersClients.FirstOccurrences` | ecmcli/commands/routers.py:340 | Dict keys: the same keys, each listed once, in an order the contract leaves open. |
| `RoutersClients.OnlineIdOrder` | ecmcli/commands/routers.py:340 | The ids joined into `id__in` are exactly the keys of `ids`, without repeats. |
| `RoutersClients.IdIn` | ecmcli/commands/routers.py:340 | `','.join(ids)`, the `id__in` argument of every status query. `RoutersClients.OnlineIdOrder` describes the ids it joins. |
| `RoutersClients.TagClients` | ecmcli/commands/routers.py:339-345 | The tagging loop: skip unsuccessful responses, tag each client with `ids[str(id)]`, raise KeyError for an unknown id. `TagClientsFails`, `TagClientsKeepsClients` and `TagClientsTagsByOrigin` describe it. |
| `RoutersClients.TagClientsFails` | ecmcli/commands/routers.py:339-345 | Tagging raises exactly when a successful response with clients has an id missing from `ids`. The KeyError names the first such response. |
| `RoutersClients.TagClientsKeepsClients` | ecmcli/commands/routers.py:339-345 | Skips unsuccessful responses and keeps every client of the successful ones, in response order. |
| `RoutersClients.TagClientsTagsByOrigin` | ecmcli/commands/routers.py:343-345 | Each kept client is tagged `ids[str(id)]`, where id is that of the response it came from. |
| `RoutersClients.ClientsOfConcat` | ecmcli/commands/routers.py:345 | Appending tagged clients appends their clients. |
| `RoutersClients.Hostname` | ecmcli/commands/routers.py:309-317 | The DNS getter gives the hostname of the last lease for the MAC over the successful pages, or ''. |
| `RoutersClients.WifiRecord` | ecmcli/commands/routers.py:319-326 | The WiFi getter gives the last WiFi record for the MAC over the successful pages, or the empty default. |
| `RoutersClients.LaterLeaseWins` | ecmcli/commands/routers.py:311-316 | If a later successful lease page has a lease for a MAC, the MAC's hostname is that of the page's last lease for it, whatever earlier pages said. |
| `RoutersClients.FailedLeasePageIgnored` | ecmcli/commands/routers.py:313-314 | A lease response with `success` false changes no hostname. |
| `RoutersClients.Rows` | ecmcli/commands/routers.py:347-361 | One table line per tagged client, in order, each built from that client. |
| `RoutersClients.Row` | ecmcli/commands/routers.py:347-359 | One table line: the accessors router, ip_address, the DNS getter, mac, the vendor lookup and, when verbose, the two WiFi columns. `RoutersClients.ClientsJoin` states every column. |
| `RoutersClients.WifiStat` | ecmcli/commands/routers.py:354-358 | `wifi_getter(x).get('rssi0', na)` or `.get('txrate', na)`: the statistic of the last WiFi record for the MAC, or n/a. `RoutersClients.WifiRecord` describes the record. |
| `RoutersClients.FirstLookupFailure` | ecmcli/commands/routers.py:361 | The first row whose vendor lookup raised, or the row count: every earlier row's lookup succeeded. |
| `RoutersClients.Listing` | ecmcli/commands/routers.py:360-361 | `table.print(data)` ends with ValueError when a lookup raises. Otherwise it gives the rows, every vendor lookup having succeeded. |
| `RoutersClients.ListingFails` | ecmcli/commands/routers.py:301-302 | The listing fails exactly when some client's MAC prefix is not hex. The ValueError is that of the first such client. |
| `RoutersClients.ClientsFor` | ecmcli/commands/routers.py:334-352 | With no online router the command stops with "No online routers found" before any status query. Otherwise it queries LAN clients, then leases, then WiFi records only when verbose, all with the same `id__in`. A KeyError during tagging stops it after the first query. That KeyError names the first successful response with clients whose id is missing from `ids`. Otherwise every query is made, and a failure is the vendor lookup's ValueError. |
| `RoutersClients.ClientsRun` | ecmcli/commands/routers.py:328-337 | The listing runs on the chosen routers only when choosing them succeeds, and its log follows the selection's. A selection error is the command's error. |
| `RoutersClients.ClientsRunOnlyReads` | ecmcli/commands/routers.py:328-352 | The command never prompts, prints a message or sends a request. |
| `RoutersClients.ClientsForOnlyPolls` | ecmcli/commands/routers.py:334-352 | After selection, the listing only issues status queries. |
| `RoutersClients.ClientsJoin` | ecmcli/commands/routers.py:338-361 | Each row holds one client of a successful LAN response, in response order. It shows the client's MAC and address and the name of the router it came from. It also shows the last-lease hostname, the short or long vendor, and, when verbose, `rssi0` and `txrate` from the last WiFi record or n/a. |
| `RoutersClients.ClientsLookupFails` | ecmcli/commands/routers.py:338-361 | With every router known, the command fails exactly when a client of a successful LAN response has a non-hex MAC prefix. It then fails with the first such client's ValueError, after all status queries. |
| `Api.FirstFailure` | ecmcli/commands/reboot.py:20-21 | The position of the first identifier that fails to resolve: every earlier one resolves. |
| `Api.ResolveAll` | ecmcli/commands/reboot.py:20-21 | The list comprehension resolves each identifier once, in argument order. It gives one router per identifier. Otherwise it raises the first failure, after resolving exactly the identifiers up to it. |
| `Selection.SelectRouters` | ecmcli/commands/reboot.py:19-23 | With identifiers, the routers are their resolutions. Without them, the routers are the whole router listing. |
| `Selection.SelectionFetches` | ecmcli/commands/reboot.py:19-23 | Selection fetches nothing without identifiers, and otherwise fetches the identifiers in order up to the first failure. The chosen routers are the listing or the resolved routers. |
| `Selection.SelectionOnlyFetches` | ecmcli/commands/reboot.py:19-23 | Choosing routers issues no request, prompt, message or status query. |
| `Api.ApprovedPositions` | ecmcli/commands/reboot.py:24-28 | A position is acted on exactly when it is forced or its answer is yes. The positions are ascending. |
| `Api.Approved` | ecmcli/commands/reboot.py:24-28 | The routers a confirm-or-force loop acts on: the i-th is kept when forced or the i-th answer is yes. `Api.ApprovedIsFilter` and `Api.ApprovedForced` describe it. |
| `Api.ApprovedIsFilter` | ecmcli/commands/reboot.py:24-31 | The kept routers are the routers at the approved positions, in router order: an order-preserving filter. |
| `Api.ApprovedForced` | ecmcli/commands/reboot.py:25 | With `--force` every router is kept, whatever the answers. |
| `Api.ProjectionsOfConcat` | ecmcli/commands/reboot.py:24-31 | The requests, prompts, messages, fetches and queries of consecutive actions are those of each action, in order. |
| `RoutersEdit.EditBody` | ecmcli/commands/routers.py:229-234 | The body holds exactly those of name, desc, asset_id, custom1 and custom2 that were given, with the given values. |
| `RoutersEdit.EditBodyByOption` | ecmcli/commands/routers.py:229-234 | Each option appears in the body under its API name exactly when given, and the body has no other key. |
| `RoutersEdit.EditBodyUnique` | ecmcli/commands/routers.py:229-234 | The options determine the body. |
| `RoutersEdit.Edit` | ecmcli/commands/routers.py:227-235 | Resolves the router. On failure nothing is sent. Otherwise exactly one `put('routers', id, body)` follows, with the partial-update body and no timeout. |
| `RoutersEdit.EditSendsOneRequest` | ecmcli/commands/routers.py:235 | A successful `edit` issues that one request and asks and prints nothing. |
| `RoutersDelete.HandleProjections` | ecmcli/commands/routers.py:268-272 | Per router: one prompt unless forced, and one `delete('routers', id)` exactly when forced or confirmed. |
| `RoutersDelete.Handle` | ecmcli/commands/routers.py:268-272 | One router's events: a prompt unless forced, then the removal when forced or confirmed. `RoutersDelete.HandleProjections` describes it. |
| `RoutersDelete.DeletedLog` | ecmcli/commands/routers.py:266-272 | The reference log of the loop: for each resolved router in order, the fetch of its identifier followed by its `Handle` block. `RoutersDelete.DeletedLogProjections` describes it. |
| `RoutersDelete.DeletedLogProjections` | ecmcli/commands/routers.py:265-272 | Over the resolved routers, in order: one fetch each, one prompt each unless forced, no message, and removals that are the order-preserving filter by force-or-confirmed. |
| `RoutersDelete.DeleteEach` | ecmcli/commands/routers.py:265-272 | Block by block: identifier k is fetched, then its router is prompted for unless forced, then removed when forced or confirmed, all before identifier k+1 is fetched. The projections are those of `DeletedLogProjections`. |
| `RoutersDelete.DeleteResolved` | ecmcli/commands/routers.py:265-272 | The loop over the identifiers before the first failure: the fetch, prompt and removal of each router come before the next identifier's fetch. |
| `RoutersDelete.Delete` | ecmcli/commands/routers.py:265-272 | Identifiers are handled in order, each resolved once. The log is the resolved routers' blocks in order, then the failing identifier's fetch if there is one. There is one prompt per resolved router unless forced. Removals are the order-preserving filter of the resolved routers by force-or-confirmed. A failing identifier ends the command with its error. |
| `Reboot.HandleProjections` | ecmcli/commands/reboot.py:25-31 | Per router: one prompt unless forced. When forced or confirmed, one "Rebooting" line and one reboot request for that router. Otherwise nothing. |
| `Reboot.RebootRequest` | ecmcli/commands/reboot.py:30-31 | `put('remote', '/control/system/reboot', 1, timeout=0, id=x['id'])` for one router. |
| `Reboot.Handle` | ecmcli/commands/reboot.py:25-31 | One router's events: a prompt unless forced, then, when forced or confirmed, the "Rebooting" line and the request. `Reboot.HandleProjections` describes it. |
| `Reboot.Handled` | ecmcli/commands/reboot.py:24-31 | The reference log of the loop: the routers' `Handle` blocks in order. `Reboot.RebootEach` relates it to the request, message and prompt projections. |
| `Reboot.RebootEach` | ecmcli/commands/reboot.py:24-31 | The log is the routers' blocks in order: each router's prompt unless forced, then, when it goes ahead, its "Rebooting" line and its request, all before the next router's block. Reboot requests `put('remote', '/control/system/reboot', 1, timeout=0, id=…)`, and "Rebooting" lines, are the order-preserving filter of the routers by force-or-confirmed. There is one prompt per router unless forced. |
| `Reboot.RebootRouters` | ecmcli/commands/reboot.py:18-31 | A failing identifier ends the command before any prompt or request. Otherwise the log is the selection's fetches followed by the per-router blocks of `RebootEach`, in router order, with no status query. |

## Left out

- The HTTP service (`api.ECMService`: connection, authentication,
  pagination, retries) is not part of this model. It is an oracle here.
  Pager reads of the router listing are not logged as events, and a pager
  that fails partway through is not modelled.
- Loading `mac.db` through `pkg_resources` and `pickle` is file I/O. The
  vendor table is a given map from prefix to short and long name.
- `Printer.since` reads the wall clock and calls `humanize`. The verbose
  printer's location URL formats floats. Table rendering, `print` layout
  and all `setup_args` argument wiring are output and parsing plumbing.
- The `show`, `search`, `move`, `groupassign`, `groupunassign` and `routers`
  commands are outside the modelled core. So are `ecmcli/main.py`,
  `ecmcli/commands/settings.py` and `setup.py`.
- Interactive confirmation is an oracle. The terminal is not simulated, and
  `confirm`'s own exit path is not used by these commands.
- `Hex.ParseHex`: accepts only a plain run of hex digits. Python's `int(s,
  16)` also accepts surrounding whitespace, a sign and a `0x` prefix. The
  model reports ValueError for those. Underscores between digits are
  rejected both here and by Python 3.4, the version setup.py:42 names.
- `MacVendor.MacPrefix`: inherits the `Hex.ParseHex` restriction, so a MAC
  text that `int()` would accept only through those extra forms is a
  ValueError here.
- `RoutersClients.OnlineIdOrder`: the order of the ids in `id__in` is that
  of dict iteration, which Python 3.4 (setup.py:42) leaves unspecified. The
  model picks first-occurrence order, and no contract depends on it.
- `RoutersClients.Listing`: the rows that `table.print` may write before a
  vendor lookup raises are not modelled. The command's ValueError is.
- `RoutersClients.ClientsFor`: a LAN, lease or WiFi record without a `mac`
  key raises KeyError in the source. The model's records always carry the
  fields they read.
- The bit tests `& 0x20000` and `& 0xffff` are stated arithmetically:
  `(p / 0x20000) % 2 == 1` and `p % 0x10000`, which agree for the
  non-negative prefixes `int(s, 16)` yields from hex digits.
- `RoutersDelete.Delete`: `delete` on the service never fails in the model.
  In the source a raising `delete` (ecmcli/commands/routers.py:272) ends the
  loop there.
- `RoutersDelete.Delete`: the resolver is a fixed function, not state the
  deletions change. So `delete foo foo` removes the router twice. In the
  source the second lookup (ecmcli/commands/routers.py:266-267) runs after
  the first removal and would normally fail.
- `Reboot.RebootRouters`: the reboot `put` never fails in the model. In the
  source a raising `put` (ecmcli/commands/reboot.py:30) ends the loop there.
- `RoutersEdit.Edit`: the `put` never fails in the model. A raising `put`
  (ecmcli/commands/routers.py:235) is the service's error, which the model
  does not represent.
- `RoutersEdit.Edit`: how the service applies the partial update is not
  part of this model. It is the service's behaviour, not the client's.
