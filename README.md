# inframon core, modelled in Dafny

inframon is a small cluster monitor. Every machine runs an agent. The agent samples CPU, GPU, memory, power and network figures once a second and keeps a one-hour history of them. One machine is the *master*. It keeps a registry of every node. The other nodes find the master by probing their subnet, then register with it and send it snapshots. A snapshot is the base 64 encoding of the metrics' JSON text.

This project models the parts of that system that carry logic and proves what they promise:

- **Node registry** (`registry.dfy`, module `Registry`). The registry is a JavaScript `Map<string, ServerNode>` that these handlers change:
  - register, which deduplicates by IP;
  - list and get, which apply the 60-second staleness filter;
  - delete;
  - heartbeat;
  - rename, which is forwarded to the node first;
  - the master's own entry, rewritten on every sampling tick.

  The pure step functions say what each handler does. The class `NodeRegistry` performs the same changes in place, and its methods are proved against those functions. The clock is the parameter `now`, in milliseconds. The forwarded rename call is the parameter `remoteOk`.
- **Metric history** (`history.dfy`, `servermon.dfy`). This is the push-then-shift series bounded at 3600 samples, kept by the agent (seven series) and by the stand-alone monitor (six series). It also covers the monitor's "newest sample or 0" read.
- **Peer discovery** (`discovery_spec.dfy`, `discovery.dfy`). This covers:
  - the subnet prefix;
  - the master's reply to a probe;
  - the five-sweep, 254-host, 50-per-batch scan, as a class over the variables the closures of `discoverMaster` update.

  Sockets are not modelled. What a probe of host `h` in sweep `s` receives is the input `network(s, h)`. The schedule is sequential: a whole batch is started, then the events of its probes are handled probe after probe.
- **Node ordering** (`sorting.dfy`). This is `sortNodes` with its custom-order override, the key comparisons and the direction flip. `Array.prototype.sort` is modelled as a stable insertion sort.
- **Payload codec** (`base64.dfy`, `payload.dfy`). `btoa`/`atob` are modelled as the padded base 64 of section 4 of RFC 4648, with the forgiving decode of the HTML standard (ASCII white space stripped, optional padding). `compressData`/`decompressData` are modelled with their guards, and JSON is kept abstract.
- **Parsers of command output** (`scan.dfy` and the files below). Commands are not run: their outputs are parameters, and `None` stands for a command that failed.
  - `chip_flops.dfy`: the `CHIP_FLOPS` table and its laptop-alias loop.
  - `gpu_name.dfy`: GPU name normalisation.
  - `capabilities.dfy`: the memory and chip parsing of `getDeviceCapabilities`.
  - `uptime.dfy`: `getUptime`.
  - `vmstat.dfy`: the `vm_stat` page tally.
  - `gpu_cores.dfy`: `getGpuCoreCount`.
  - `command.dfy`: the `su` wrapping and output collection of `executeCommand`.

  `text.dfy` and `scan.dfy` model the JavaScript string built-ins and the regular expressions these parsers use.

One place where the code and its description disagree: discovery is described as closing the losing sockets once a master is found. The code does not do this. `foundMaster` only stops new probes, and sockets already open keep their handlers. The model follows the code.

## Model

| member | source | states |
|---|---|---|
| Registry.Without | inframon.ts:184 | the key list after `nodes.delete(k)` holds exactly the other keys, still distinct |
| Registry.WithoutAppend | inframon.ts:184 | removing a key works part by part and keeps the other keys in their insertion order |
| Registry.FindNonMaster | inframon.ts:80-82 | the first record in insertion order that is not a master and has the IP; `None` exactly when no record is such |
| Registry.RegisterStep | inframon.ts:61-99 | a blank blob gives 500 with the map unchanged; otherwise 200, and either the first non-master with the same IP is refreshed under its own id (lastSeen now, CONNECTED, new blob and name, every other record and the key set unchanged) or the submitted record is stored under its id as CONNECTING, a new id going last |
| Registry.ActiveAmong | inframon.ts:101-103 | the listed records are exactly the live records (`now - lastSeen < 60000`) of the map |
| Registry.Lookup | inframon.ts:118-139 | 404 exactly when the id is absent or stale, 500 exactly when the live record has an empty blob, otherwise the record itself |
| Registry.DeleteStep | inframon.ts:174-190 | 404 with nothing changed for an absent id; otherwise exactly that key is removed, from the records and from the key order alike |
| Registry.HeartbeatStep | inframon.ts:192-204 | 404 with nothing changed for an absent id; otherwise only the status becomes CONNECTED (`lastSeen` untouched), and in a well-formed table the key order stays as it was |
| Registry.RenameStep | inframon.ts:141-172 | the rename with the record read again when the name is written: 404 for an absent id; 500 with nothing changed when the forwarded call failed; otherwise only the name changes |
| Registry.RenameCapture | inframon.ts:144-149 | `nodes.get` before the `await`: 404 exactly when the id is absent, otherwise the record object itself |
| Registry.RenameWriteBack | inframon.ts:160-166 | after the `await`: 500 with nothing changed when the forwarded call failed; otherwise the captured object, renamed, is under the id whatever the map held, and every other record is unchanged |
| Registry.RenameWithoutInterleaving | inframon.ts:144-166 | when nothing deleted the record during the `await`, capture then write-back is the one-step rename |
| Registry.StaleRenameResurrects | inframon.ts:144-166 | a delete of "a" and a registration of "c" from the same IP during the `await` are followed by the write-back: "a" is back, and two non-master records share the IP |
| Registry.RenameAfterDelete | inframon.ts:141-190 | a rename that reads the map at write-back time leaves a deleted record deleted and keeps the invariant |
| Registry.SelfUpdateStep | inframon.ts:301-317 | the master's own entry is the complete record under its own id: its name, os, ip and port, seen now, a master, CONNECTED, with `compressData`'s result or "" for null as its blob; no other record changes and no other key appears; in a well-formed table the id keeps its place in the key order, or goes last when it is new |
| Registry.SetKeepsWellFormed | inframon.ts:90-91 | `nodes.set(id, node)` keeps every key listed once and every record under its own id |
| Registry.RegisterKeepsConsistent | inframon.ts:80-91 | registration preserves well-formedness and "at most one non-master record per IP" |
| Registry.DeleteKeepsConsistent | inframon.ts:184 | delete preserves the same invariant |
| Registry.HeartbeatKeepsConsistent | inframon.ts:196-198 | heartbeat preserves the same invariant |
| Registry.RenameKeepsConsistent | inframon.ts:165-166 | the rename that reads the map at write-back time preserves the same invariant |
| Registry.SelfUpdateKeepsConsistent | inframon.ts:303-317 | the master's self-update preserves the same invariant |
| Registry.RepeatedRegistrationDoesNotGrow | inframon.ts:80-91 | after one non-master registration from an IP, a second non-blank registration from that IP does not grow the map |
| Registry.RefreshKeepsSize | inframon.ts:84-89 | a refreshing registration leaves the number of records unchanged |
| Registry.ListAgreesWithLookup | inframon.ts:101-139 | a record is listed exactly when get does not answer 404 for it |
| Registry.DeleteThenLookup | inframon.ts:118-185 | after delete, get answers 404 and the list does not contain the id |
| Registry.HeartbeatDoesNotRevive | inframon.ts:196-197 | a heartbeat on a stale record leaves it stale: get still answers 404 |
| Registry.AllActiveListed | inframon.ts:102-103 | when every record is live, the list has one entry per key |
| Registry.MasterThenAlpha | inframon.ts:61-99 | the master's first tick then one slave registration give exactly the two records, in that order |
| Registry.ThreeNodesScenario | inframon.ts:61-99 | the master plus two slaves at different IPs give three live records |
| Registry.AlphaRestarts | inframon.ts:80-89 | a slave that re-registers under a new id from its old IP refreshes its old record |
| Registry.RestartScenario | inframon.ts:80-89 | after that restart there are still three records, and the new id was not added |
| Registry.NodeRegistry.constructor | inframon.ts:59 | the registry starts empty and well-formed |
| Registry.NodeRegistry.SetEntry | inframon.ts:90 | the map after `set` is the value `Set` describes |
| Registry.NodeRegistry.Register | inframon.ts:61-99 | the new map and the response are those of `RegisterStep`; the invariant is kept |
| Registry.NodeRegistry.List | inframon.ts:101-116 | the loop over the records returns the active records in insertion order |
| Registry.NodeRegistry.Get | inframon.ts:118-139 | the response is that of `Lookup` |
| Registry.NodeRegistry.Rename | inframon.ts:141-172 | the new map and the response are those of `RenameStep` (the record read when the name is written); the invariant is kept |
| Registry.NodeRegistry.Delete | inframon.ts:174-190 | the new map and the response are those of `DeleteStep`; the invariant is kept |
| Registry.NodeRegistry.Heartbeat | inframon.ts:192-204 | the new map and the response are those of `HeartbeatStep`; the invariant is kept |
| Registry.NodeRegistry.SelfUpdate | inframon.ts:301-317 | the new map and key order are those of `SelfUpdateStep`, so the master is listed as a CONNECTED record under its own id and address; the invariant is kept |
| History.Pushed | inframon.ts:256-270 | after a tick the newest sample is last, and the length grows by one unless the bound was passed |
| History.PushedBounded | inframon.ts:264-270 | a series within 3600 entries stays within it, growing by one until the bound is reached |
| History.PushedFifo | inframon.ts:256-270 | below the bound a tick appends; at the bound it drops the oldest and appends |
| History.RecordedIsWindow | inframon.ts:235-270 | after any number of ticks a series holds exactly the latest 3600 samples, oldest first |
| History.LatestOrZero | servermon.ts:80-85 | the newest sample of a series, or 0 when it is empty |
| History.LatestAfterTick | servermon.ts:45-85 | reading right after a tick gives that tick's sample |
| History.AgentHistory.constructor | inframon.ts:235-243 | the seven series start empty and of equal length |
| History.AgentHistory.Tick | inframon.ts:244-270 | every series is pushed and trimmed by the same rule; all seven keep one common length within 3600 |
| Servermon.ServerHistory.constructor | servermon.ts:26-33 | the six series start empty and of equal length |
| Servermon.ServerHistory.Tick | servermon.ts:34-58 | each series gets exactly one new value and loses its oldest past 3600; all six keep one common length |
| Servermon.ServerHistory.Current | servermon.ts:79-86 | before any tick every figure is 0; afterwards each figure is the newest sample of its series, all from the same tick |
| Servermon.ReportAfterTick | servermon.ts:79-86 | the server-data report read after a tick holds exactly that tick's values |
| DiscoverySpec.FirstExternal | src/lib/discovery.ts:132-133 | the position of the first non-internal IPv4 alias of an interface, and none before it qualifies |
| DiscoverySpec.FirstExternalIn | src/lib/discovery.ts:131-138 | `None` exactly when no interface has a non-internal IPv4 alias; otherwise the first such alias of the first interface that has one, no earlier interface having any |
| DiscoverySpec.SubnetPrefix | src/lib/discovery.ts:135 | the prefix always ends with a dot |
| DiscoverySpec.SubnetOfDottedQuad | src/lib/discovery.ts:135 | the prefix of `a.b.c.d` is `a.b.c.` |
| DiscoverySpec.GetSubnet | src/lib/discovery.ts:129-140 | the loop returns the prefix of the first non-internal IPv4 address, else "192.168.1." |
| DiscoverySpec.Respond | src/lib/discovery.ts:11-24 | the master answers exactly the text "INFRAMON_DISCOVERY", with a MASTER_ANNOUNCE reply carrying `http://<ip>:3899` |
| DiscoverySpec.FateOf | src/lib/discovery.ts:63-84 | a probe announces only a URL it received in a MASTER_ANNOUNCE reply; a socket that stays open only received other parsed replies; otherwise the first event the handlers do not ignore decides: an announcement resolves with its URL, and unparseable data, a timeout or an error cleans up |
| DiscoverySpec.ProbeCleansUp | src/lib/discovery.ts:73-84 | unparseable data, a timeout or an error after ignored replies closes the probe, whatever follows |
| DiscoverySpec.IgnoredPrefix | src/lib/discovery.ts:63-68 | replies of another type than MASTER_ANNOUNCE are ignored: they change nothing about what the later events decide |
| DiscoverySpec.ProbeFindsMaster | src/lib/discovery.ts:13-72 | a probe that receives the master's reply announces the master's URL |
| DiscoverySpec.Started | src/lib/discovery.ts:104-111 | the first `n` probes of the schedule |
| DiscoverySpec.SweepVisitsEveryHostOnce | src/lib/discovery.ts:104-111 | sweep `a` probes hosts 1..254 once each, ascending, each inside its batch of at most 50 |
| DiscoverySpec.FirstAnnouncer | src/lib/discovery.ts:66-71 | the index of the first probe that announces, none before it announcing |
| Discovery.Scan.constructor | src/lib/discovery.ts:33-39 | the scan starts with no sweep, no open connection, no master and a pending promise |
| Discovery.Scan.Settle | src/lib/discovery.ts:51-71 | only the first `resolve`/`reject` has an effect |
| Discovery.Scan.Cleanup | src/lib/discovery.ts:48-54 | one connection fewer, and a rejection once none is open, every sweep is counted and no master was seen |
| Discovery.Scan.StartProbe | src/lib/discovery.ts:41-46 | nothing once a master is found; otherwise one more open connection and one more started probe |
| Discovery.Scan.Receive | src/lib/discovery.ts:58-84 | the handlers applied to a probe's events change the bookkeeping as its fate says |
| Discovery.Scan.StartBatch | src/lib/discovery.ts:108-111 | a batch starts the probes of hosts 50b+1 .. min(50b+50, 254) in order |
| Discovery.Scan.ScanBatch | src/lib/discovery.ts:104-117 | one batch started and handled; a master found is the first announcer among the started probes |
| Discovery.Scan.Sweep | src/lib/discovery.ts:92-123 | one sweep counts one attempt and either probes all 254 hosts or stops after the batch where a master was found |
| Discovery.Scan.Run | src/lib/discovery.ts:31-127 | the whole scan: a master is found exactly when some probe announced one, and the promise settles as the scan outcome says |
| Discovery.Discover | src/lib/discovery.ts:31-127 | a fresh `discoverMaster` call: the promise resolves to the first announced URL unless the fifth-sweep rejection came first; with no announcer it is rejected after all five sweeps |
| Discovery.LateMasterAnswersLate | src/lib/discovery.ts:51-53 | on a network where only host 100 answers, and only in the fifth sweep, the first batch of that sweep is all refused |
| Discovery.LateMasterOutcomes | src/lib/discovery.ts:51-71 | on that network, the code as written rejects, while the corrected cleanup resolves with the master's URL |
| Sorting.IndexOf | src/lib/sorting.ts:11-12 | the first position of the id in the custom order, -1 exactly when it is absent |
| Sorting.Compare | src/lib/sorting.ts:9-33 | two ids in the custom order compare by position (negative exactly when the first comes earlier, 0 exactly for the same id); otherwise the key comparison `KeyOrder` times the direction |
| Sorting.CompareByKey | src/lib/sorting.ts:16-32 | outside the custom order the comparator is the key comparison, negated for "desc", and 0 for an unknown key |
| Sorting.CompareByCustomOrder | src/lib/sorting.ts:10-13 | two nodes that both appear in the custom order compare by their positions in it |
| Sorting.CompareMasters | src/lib/sorting.ts:16-20 | by "master": equal flags tie; the master goes first ascending and last descending |
| Sorting.Insert | src/lib/sorting.ts:9 | one insertion step adds exactly the element (a permutation) |
| Sorting.SortBy | src/lib/sorting.ts:9 | the sort returns a permutation of its input |
| Sorting.InsertSorted | src/lib/sorting.ts:9 | inserting into a sorted sequence keeps it sorted when the comparator is a total preorder |
| Sorting.SortBySorted | src/lib/sorting.ts:9 | the result is sorted by the comparator whenever it is a total preorder on the elements |
| Sorting.AllTiesKeepOrder | src/lib/sorting.ts:9-32 | a comparator that ties every pair leaves the order as it was (stability) |
| Sorting.SortNodes | src/lib/sorting.ts:3-35 | `sortNodes` returns a permutation of the nodes; the input is a value and is not changed |
| Sorting.UnknownKeyKeepsOrder | src/lib/sorting.ts:31-32 | with an unknown key and no custom order the nodes come back in their original order |
| Sorting.MasterOrderIsPreorder | src/lib/sorting.ts:20 | the "master" comparator is a total preorder |
| Sorting.MastersFirst | src/lib/sorting.ts:16-20 | ascending by "master", every master precedes every other node |
| Sorting.MastersLastDescending | src/lib/sorting.ts:16-20 | descending by "master", every master follows every other node |
| Sorting.CustomOrderFollowed | src/lib/sorting.ts:10-13 | when the custom order lists every node, the result follows the custom order |
| Base64.CharOf | src/lib/utils.ts:9 | each sextet has an alphabet character, never `=` |
| Base64.ValueOf | src/lib/utils.ts:22 | a character reads as the sextet whose character it is; `=` and non-alphabet characters read as nothing |
| Base64.ValueOfCharOf | src/lib/utils.ts:9-22 | a sextet's character reads back as that sextet |
| Base64.Sextets | src/lib/utils.ts:9 | three bytes become four sextets; a final one or two bytes become two or three; no bytes, no sextets |
| Base64.GroupRoundTrip | src/lib/utils.ts:9-22 | the bit arithmetic of one group: each byte is rebuilt from the sextets that hold it |
| Base64.BytesOfSextets | src/lib/utils.ts:9-22 | decoding the sextets of a byte string gives the bytes back |
| Base64.Chars | src/lib/utils.ts:9 | each sextet becomes its character, position by position |
| Base64.Values | src/lib/utils.ts:22 | a string reads as sextets exactly when every character is in the alphabet, and then the sextets spell it |
| Base64.ValuesOfChars | src/lib/utils.ts:9-22 | reading the characters of sextets gives the sextets back |
| Base64.Encode | src/lib/utils.ts:9 | the padded encoding's length is a multiple of 4 |
| Base64.BytesOf | src/lib/utils.ts:9 | a string of one-byte characters as bytes, one per character |
| Base64.StringOf | src/lib/utils.ts:22 | bytes as a string of one-byte characters, the inverse of `BytesOf` |
| Base64.Btoa | src/lib/utils.ts:9 | `btoa` throws exactly on a character above U+00FF; otherwise it gives the encoding of the bytes |
| Base64.WithoutSpace | src/lib/utils.ts:22 | the forgiving decode's white-space removal leaves no ASCII white space and keeps a space-free string unchanged |
| Base64.WithoutPadding | src/lib/utils.ts:22 | at most two trailing `=` are removed, and no further `=` is left at the end |
| Base64.Atob | src/lib/utils.ts:22 | a successful `atob` yields a string of one-byte characters |
| Base64.EncodingHasNoSpace | src/lib/utils.ts:9-22 | an encoding holds no white space |
| Base64.EncodingPadding | src/lib/utils.ts:9-22 | removing an encoding's padding leaves exactly the characters of its sextets |
| Base64.AtobBtoa | src/lib/utils.ts:9-22 | `atob(btoa(s)) == s` whenever `btoa` accepts `s` |
| Payload.CompressData | src/lib/utils.ts:4-14 | null for falsy data, for an empty or `""` serialisation and for every throw; otherwise the base 64 of the JSON text |
| Payload.DecompressData | src/lib/utils.ts:16-32 | null for missing or empty input, for input `atob` rejects, for an empty or `""` text and for text the parser rejects; otherwise the parsed value |
| Payload.DecompressCompress | src/lib/utils.ts:9-26 | whenever `compressData` yields a payload, `decompressData` of it is what the parser makes of the data's JSON text |
| Payload.CompressedIsNonEmpty | src/lib/utils.ts:9-18 | a payload is never empty, so `decompressData` never refuses it as empty |
| Text.TrimStart | system_info.ts:151 | removes exactly the longest all-white-space prefix |
| Text.TrimEnd | system_info.ts:151 | removes exactly the longest all-white-space suffix |
| Text.Trim | system_info.ts:151 | the result is a piece of the input with only white space before and after it, and no white space at either end of its own; a string with none at its ends is unchanged |
| Text.Split | system_info.ts:741-744 | the pieces are free of the separator, and there is one piece exactly when the separator is absent |
| Text.JoinSplit | src/lib/discovery.ts:135 | joining the pieces of a split with the same separator gives the text back |
| Text.IndexOfFrom | system_info.ts:743 | the first occurrence at or after the start, none before it |
| Text.ContainsIff | system_info.ts:743 | `includes` holds exactly when the pattern occurs somewhere |
| Text.NatToString | system_info.ts:624 | a decimal rendering without leading zeros that denotes the number |
| Text.ParseNatToString | system_info.ts:619 | `parseInt` reads a decimal rendering back |
| Text.ParseInt | system_info.ts:229 | text starting with a digit reads as a non-negative number |
| Text.ParseIntNeedsDigit | system_info.ts:619 | text without a digit reads as NaN |
| Text.IntToString | system_info.ts:624 | a non-empty rendering that starts with a minus sign exactly for a negative number, and otherwise with a digit |
| Text.ParseIntToString | system_info.ts:619-624 | `parseInt` reads an integer's rendering back, sign included |
| Text.IntToStringNoSpace | system_info.ts:624 | a rendered integer holds no space, so each figure of the uptime line is one word |
| Scan.FindLabel | system_info.ts:220-221 | the leftmost position where `/tag(.+)/` can match |
| Scan.Capture | system_info.ts:220-224 | the match fails exactly when no position fits; a capture is the rest of the line after the leftmost usable tag, non-empty and free of line breaks |
| Scan.CaptureAfter | system_info.ts:220-224 | wherever the first occurrence of the tag lies, the text after it up to the end of the line is captured |
| Scan.CaptureAfterLines | system_info.ts:220-224 | a tag on a line of its own, after lines that do not mention it, captures the rest of its line |
| Scan.FindNumber | system_info.ts:392-393 | the leftmost position where `/pre(\d+)post/` matches |
| Scan.NumberLine | system_info.ts:392-393 | `pre`, a number and `post` after any text match right after that text and capture the number |
| Scan.ParseIntRun | system_info.ts:400 | `parseInt` of text starting with digits reads exactly that run |
| Scan.ParseNatPrefix | system_info.ts:619 | `parseInt` reads a number back even when other text follows it |
| GpuName.UpperChar | system_info.ts:256 | a lower-case letter becomes its capital; every other character is unchanged |
| GpuName.Upper | system_info.ts:256 | upper-casing keeps the length, maps each character and leaves no lower-case letter |
| GpuName.UpperFixes | system_info.ts:256 | upper-casing changes nothing in a string without lower-case letters |
| GpuName.CollapseSpace | system_info.ts:257 | each white-space run becomes one plain space: single-spaced, no longer, empty only for empty input |
| GpuName.CollapseRun | system_info.ts:257 | a word followed by a white-space run of any length becomes the word and one space, the rest collapsing on its own |
| GpuName.CollapseWord | system_info.ts:257 | a word without white space is kept as it is |
| GpuName.CollapseKeepsVisible | system_info.ts:257 | collapsing keeps every visible character, in order |
| GpuName.CollapseKeepsNoLower | system_info.ts:257 | collapsing introduces no lower-case letter |
| GpuName.CollapseFixes | system_info.ts:257 | a single-spaced string is left as it is |
| GpuName.TrimVisible | system_info.ts:258 | `trim` keeps the visible characters |
| GpuName.TrimKeepsShape | system_info.ts:258 | `trim` keeps "no lower case" and "single-spaced" |
| GpuName.Normalize | system_info.ts:256-258 | the name has no lower-case letter, no leading, trailing or doubled space, and the same visible characters as the upper-cased input |
| GpuName.NormalizeIdempotent | system_info.ts:256-258 | normalising twice is normalising once |
| GpuName.NormalizeFixes | system_info.ts:256-258 | a name already in normal form is unchanged |
| GpuName.NormalizeTo | system_info.ts:256-258 | a name whose upper-cased form is single-spaced and trimmed normalises to that form |
| GpuName.NormalizeNotLower | system_info.ts:256-264 | a normalised name never equals a key containing a lower-case letter |
| ChipFlops.InsertWellFormed | system_info.ts:120-123 | setting a key keeps the key order in step with the object |
| ChipFlops.LiteralWellFormed | system_info.ts:19-116 | the object literal lists each key once |
| ChipFlops.LiteralAppend | system_info.ts:19-116 | the literal's entries are those of its two halves, the later half winning |
| ChipFlops.LiteralLacks | system_info.ts:19-116 | a name no entry carries is not a key |
| ChipFlops.LiteralKeysNamed | system_info.ts:19-116 | every key of the literal names one of its entries |
| ChipFlops.LaptopAliases | system_info.ts:120-123 | each name has four laptop spellings, each longer than the name and starting with `L` or ending with `U` |
| ChipFlops.AliasesApart | system_info.ts:120-123 | two different names (not alias-like) never share a laptop spelling |
| ChipFlops.WithAliases | system_info.ts:120-123 | one pass of the loop adds keys and drops none |
| ChipFlops.WithAliasesSets | system_info.ts:120-123 | one pass gives each spelling of the name the name's entry |
| ChipFlops.WithAliasesKeeps | system_info.ts:120-123 | one pass leaves every other key's entry alone |
| ChipFlops.Expanded | system_info.ts:119-124 | the loop over the key snapshot adds keys and drops none |
| ChipFlops.ExpandedKeepsName | system_info.ts:119-124 | the entry of a base name is unchanged by the loop |
| ChipFlops.ExpandedAlias | system_info.ts:119-124 | the `j`-th spelling of the `i`-th snapshot name carries that name's entry |
| ChipFlops.ExpandedAliases | system_info.ts:119-124 | every spelling of every snapshot name carries that name's entry |
| ChipFlops.ExpandedAddsOnlyAliases | system_info.ts:119-124 | the loop adds spellings of snapshot names and nothing else |
| ChipFlops.BuiltSpec | system_info.ts:19-124 | the loaded table holds the literal's entries unchanged, the four laptop spellings of each name with that name's entry, and nothing more |
| ChipFlops.BuiltKeepsName | system_info.ts:19-124 | a base name keeps its literal entry through module load |
| ChipFlops.BuiltAddsOnlyAliases | system_info.ts:19-124 | a base-like name is in the loaded table only if the literal names it |
| ChipFlops.ChipTable.constructor | system_info.ts:19-116 | the object evaluated entry by entry is the literal |
| ChipFlops.ChipTable.Put | system_info.ts:120 | `CHIP_FLOPS[k] = v` sets one entry, a new key going last |
| ChipFlops.ChipTable.AddLaptopVariants | system_info.ts:119-124 | the in-place loop over the snapshot leaves the table `Expanded` describes |
| ChipFlops.Load | system_info.ts:19-124 | module load leaves the table `Built` describes |
| ChipFlops.GtxAsWritten | system_info.ts:78 | the loaded table has the GTX 1660 Ti only under its mixed-case name |
| ChipFlops.GtxCorrected | system_info.ts:78 | with the key in upper case, the loaded table has the card under its upper-case name |
| Capabilities.FindMemory | system_info.ts:222 | the leftmost position where `/Memory: (\d+) (GB\|MB)/` matches |
| Capabilities.MemoryMegabytes | system_info.ts:222-231 | no memory match gives 0; otherwise the size the leftmost match states, in MB |
| Capabilities.MemoryLineAfter | system_info.ts:222-231 | where `Memory: ` first occurs as "Memory: N GB" it gives N*1024, as "Memory: N MB" N, whatever precedes it |
| Capabilities.MemoryAfterLines | system_info.ts:222-231 | a "Memory: N GB" line after lines that do not mention `Memory: ` gives N*1024 |
| Capabilities.MacProfileReport | system_info.ts:217-231 | a profile that has a model line, then a chip line, then a memory line, with any text between them that holds no earlier match for the later labels, reports that model, that chip and the memory in MB |
| Capabilities.IndentedProfile | system_info.ts:217-231 | indented lines whose text lacks the letters the labels need hold no earlier match for any label |
| Capabilities.SampleCapabilities | system_info.ts:217-231 | a full `system_profiler` display profile of a MacBook Pro with an Apple M1 Pro and 16 GB (header, model identifier, core count and firmware lines included) reports those and 16384 MB |
| Capabilities.FlopsOf | system_info.ts:264 | a known chip gets its table entry, an unknown one zeros |
| Capabilities.MacCapabilities | system_info.ts:217-238 | model and chip are the trimmed captures or "Unknown Model"/"Unknown Chip"; memory comes from the memory line; FLOPS are looked up by chip |
| Capabilities.NvidiaCapabilities | system_info.ts:250-265 | the chip is the normalised first field (upper case, single-spaced, trimmed), the model wraps the trimmed field, no comma means NaN memory, and FLOPS are looked up by the normalised chip |
| Capabilities.NvidiaLine | system_info.ts:252-265 | a `name, N MiB` line reports that name, its normal form and N |
| Capabilities.GetDeviceCapabilities | system_info.ts:216-287 | FLOPS are zeros or the table's entry for the chip; NaN memory only on the NVIDIA branch; an unsupported platform gives the unknown device; the NVIDIA chip has no lower-case letter; per branch: macOS gives the Mac capabilities of the output (or the unknown Mac), Linux with NVIDIA gives the NVIDIA capabilities of the output (or the unknown device), Linux with only AMD gives the AMD box, otherwise the unknown device |
| Capabilities.MixedCaseKeyUnreachable | system_info.ts:256-264 | no `nvidia-smi` output produces the mixed-case GTX key |
| Capabilities.SmiGtxNormalized | system_info.ts:256-258 | the GTX 1660 Ti's reported name normalises to the upper-case spelling |
| Capabilities.GtxLookupAsWritten | system_info.ts:256-264 | as written, a GTX 1660 Ti on Linux reports zero FLOPS |
| Capabilities.GtxLookupCorrected | system_info.ts:256-264 | with the corrected key, it reports 4.8/9.6/19.2 |
| Capabilities.SmiGtxChip | system_info.ts:256-262 | a GTX 1660 Ti line normalises to the upper-case chip name, whatever the table |
| Uptime.Breakdown | system_info.ts:620-623 | hours lie within ±24 and minutes within ±60, and the days are negative exactly when the uptime is |
| Uptime.BreakdownBounds | system_info.ts:620-624 | for a non-negative uptime, hours < 24, minutes < 60, and days*86400 + hours*3600 + minutes*60 ≤ u < that + 60 |
| Uptime.MacSpan | system_info.ts:619-623 | no span exactly when the boot time does not read as a number |
| Uptime.Format | system_info.ts:624 | the report starts with `up ` and a figure, so it is never the NaN line |
| Uptime.FormatReadBack | system_info.ts:624 | the report is seven words, `up D days, H hours, M minutes`, whose figures read back as the span's days, hours and minutes |
| Uptime.MacUptime | system_info.ts:617-624 | the report is the NaN line exactly when the boot time does not read as a number; otherwise it is the formatted breakdown of the whole seconds of the clock minus the boot time |
| Uptime.GetUptime | system_info.ts:607-630 | a failed command or another platform gives "Unknown"; Linux gives the trimmed `uptime -p` output; macOS gives the report for the boot time the command printed |
| Uptime.MacUptimeReport | system_info.ts:618-624 | a boot time in the past reports a span that accounts for the elapsed seconds to the minute, and the macOS uptime text is that span formatted |
| Uptime.MacReportFigures | system_info.ts:617-624 | for a boot time in the past, the three figures read back from the macOS uptime text are non-negative, hours < 24, minutes < 60, and they account for the elapsed seconds to the minute |
| Uptime.MacSpanOf | system_info.ts:619-620 | a boot time that reads as a number is subtracted from the clock |
| VmStat.PageSize | system_info.ts:392-393 | without a `page size of N bytes` match the page size is 16384; otherwise the number of the leftmost match |
| VmStat.PageSizeAfter | system_info.ts:392-393 | where `page size of ` first occurs as `page size of N bytes`, the page size is N, whatever precedes it |
| VmStat.PageSizeBanner | system_info.ts:392-393 | the banner `Mach Virtual Memory Statistics: (page size of N bytes)` gives page size N |
| VmStat.UsedPages | system_info.ts:405-412 | the sum is at least each kind it reads, and 0 exactly when all of them are 0 |
| VmStat.UsedBytes | system_info.ts:405-413 | a whole number of pages: 0 exactly when no page is used or the page size is 0, otherwise the used pages times the page size |
| VmStat.FirstKind | system_info.ts:398 | the alternation takes the first kind in pattern order that matches |
| VmStat.FindPages | system_info.ts:398 | the leftmost position where some kind matches |
| VmStat.LineMatch | system_info.ts:398 | a match names one of the pattern's kinds; there is none exactly when no kind matches anywhere |
| VmStat.NoKindAnywhere | system_info.ts:398 | when the search fails, no kind matches at any position |
| VmStat.ParsePages | system_info.ts:396-402 | the `forEach` over the lines leaves the dictionary `Tally` describes |
| VmStat.TallyKinds | system_info.ts:397-402 | only the kinds of the pattern are ever recorded |
| VmStat.TallyHasKind | system_info.ts:397-402 | a kind is recorded exactly when some line sets it |
| VmStat.TallyLastWins | system_info.ts:397-402 | later lines overwrite earlier ones: a kind holds the count of the last line that sets it |
| VmStat.UnknownKindCountsZero | system_info.ts:405-412 | a kind outside the pattern always counts 0 in the sum |
| VmStat.UsedAsWritten | system_info.ts:405-413 | as written, used pages are active + wired down + speculative + throttled |
| VmStat.UsedCorrected | system_info.ts:405-413 | with the corrected pattern, the compressor pages are added as well |
| VmStat.KindLineMatches | system_info.ts:398-400 | a kind's own `vm_stat` line matches that kind at its start and captures its count |
| VmStat.FirstKindIs | system_info.ts:398 | the first kind that matches is the one the alternation takes |
| VmStat.CompressorLineMatches | system_info.ts:398 | with the corrected pattern, the compressor line is matched as the compressor kind |
| VmStat.CompressorAsWritten | system_info.ts:398-408 | as written, the compressor line counts no pages, whatever it says |
| VmStat.CompressorCorrected | system_info.ts:398-408 | corrected, the compressor line records its count |
| GpuCores.FirstCoresLine | system_info.ts:742-743 | the index of the first line naming the core count, no earlier line naming it |
| GpuCores.LineCores | system_info.ts:744-747 | a line without a colon gives 0 |
| GpuCores.CoreCount | system_info.ts:741-752 | output without a core-count line gives 0 |
| GpuCores.FirstCoresLineIs | system_info.ts:742-743 | the first line naming the count is the one read |
| GpuCores.GetGpuCoreCount | system_info.ts:737-759 | the loop with `break` gives 0 off macOS or on failure, and otherwise the count of the first core-count line |
| GpuCores.LaterLinesIgnored | system_info.ts:742-749 | lines after the first core-count line change nothing |
| GpuCores.CoresLine | system_info.ts:744-747 | a line `... Cores: N` gives N |
| GpuCores.CoresField | system_info.ts:744-746 | a line with one colon gives what its field reads as |
| GpuCores.CoresNotANumber | system_info.ts:746-747 | a field that is not a number gives 0 |
| GpuCores.LineCoresAfterColon | system_info.ts:744-747 | for any line with a colon, the count is the text between the first and the next colon, trimmed and read as a number, or 0 when it is not one |
| Command.WrapCommand | system_info.ts:132-134 | without `asUser` the command is unchanged; with it, it is wrapped in `su - <user> -c "..."` |
| Command.UnwrapCommand | system_info.ts:132-134 | an unwrapped command is as much shorter as the wrapper is long |
| Command.UnwrapWrap | system_info.ts:132-134 | the wrapped line runs exactly the given command |
| Command.CommandRun.constructor | system_info.ts:136-137 | both buffers start empty |
| Command.CommandRun.OnStdout | system_info.ts:139-141 | a standard-output chunk is appended to the output only |
| Command.CommandRun.OnStderr | system_info.ts:143-145 | an error chunk is appended to the error output only |
| Command.CommandRun.Close | system_info.ts:147-153 | exit code 0 resolves with the trimmed output; any other code, or none, rejects naming the code and the error output |
| Command.OutcomeOf | system_info.ts:147-153 | the same, for the chunks joined in arrival order |
| Command.ExecuteCommand | system_info.ts:126-155 | the command line handed to `sh -c` is the wrapped command, and the promise settles as `OutcomeOf` says |
| Command.ResolvedIsTrimmed | system_info.ts:151 | a successful command resolves with a piece of its joined output that has only white space around it and none at either end |
| Command.OutcomeIgnores | system_info.ts:147-153 | a success ignores the error output; a failure ignores the standard output |

## Left out

- Sockets, timers and `Promise.all` in discovery are not modelled.
  - Probe outcomes are the input `network`, and a batch's events are handled one probe after another.
  - The one-second socket timeout, the one-second pause between batches and the two-second pause between sweeps are not modelled.
  - The `catch` around the socket constructor is not modelled.
  - `scanNetwork().catch(reject)` is not modelled.
- `startMaster`'s server is not modelled beyond its data handler (`listen`, `socket.write`, `socket.end`, `close`). The master's address is a parameter.
- Express routing, JSON response bodies, `fetch` and the retrying `registerWithMaster` are not modelled. Registration requests are values. The forwarded rename call is the boolean `remoteOk`.
- Signal handlers and process start-up are not modelled.
- The metric samplers are not modelled. CPU, GPU, memory, power and network figures are parameters of the history ticks, as `real` values.
- The clock (`new Date()`, `Date.now()`) and the user name (`os.userInfo()`) are parameters.
- `JSON.stringify`/`JSON.parse` stay abstract:
  - their outcomes are parameters of `Payload.CompressData` and `Payload.DecompressData`;
  - JavaScript truthiness of the data is the parameter `falsy`.
- Floating point is not modelled: the FLOPS figures are opaque triples, and the memory percentage and the division by 1024³ in `getMemoryUsage`/`getUsedMemory` are left out. The model stops at the used page count and the page size.
- Sorting.SortNodes: the cpu/gpu/memory/power keys are modelled as `real` and `localeCompare` as the parameter `nameOrder`.
  - The NaN a missing `data` produces is not modelled.
  - Sortedness is proved only when the comparator is a total preorder on the nodes (`MasterOrderIsPreorder` shows this for "master"). Otherwise only the permutation is stated.
- GpuName.UpperChar: `toUpperCase` is modelled for the ASCII letters only. Other characters are left unchanged, whereas JavaScript maps non-ASCII lower-case letters too.
- ChipFlops.BuiltSpec: holds for any literal whose names neither start with `L` nor end with `U`. That condition is not proved for the concrete table. `GtxAsWritten` and `GtxCorrected` establish the entries that matter for the GTX 1660 Ti directly.
- Capabilities.FlopsOf: the lookup is over own keys only. Keys inherited from `Object.prototype` (such as `constructor`) are not modelled.
- Uptime.Breakdown: for a negative uptime (clock behind the boot time) only the sign and the ranges of the figures are stated, not their exact values.
- Uptime.GetUptime: the text of `uptime -p` is passed through as it is, and its contents are not modelled.
- VmStat.KindLineMatches: shown for lines with one space after `Pages` and after the colon. The pattern itself (`KindAt`) accepts any white-space run, as `\s+` does.
- VmStat.UsedAsWritten: `File-backed` and `Anonymous` are read by the sum but never recorded by either pattern, because `vm_stat` prints them as `File-backed pages:` and `Anonymous pages:`. The model counts them as 0 in both the as-written and the corrected version.
- Text.ParseInt: reads decimal digits only. The radix-less `parseInt(memoryStr)` at system_info.ts:254 would also read a `0x` prefix as hexadecimal, which the model does not; `parseInt(memoryMatch[1])` at 229 only ever sees digits.
- Registry.RenameWriteBack: the interleaving during the `await` is not a scheduler of its own. The captured object is a parameter, standing for the object as it is at write-back time (a refresh or heartbeat of it in the meantime shows in it). `StaleRenameResurrects` exhibits one interleaving, and `RenameWithoutInterleaving` covers the case without a delete.
- Registry.NodeRegistry.Rename: performs the rename that reads the map at write-back time (see "## Findings"), not the stale write-back.
- Command.WrapCommand: the command is spliced into double quotes without escaping, exactly as written. Which shell interprets the result is not modelled.
- Command.ExecuteCommand: spawning the process is not modelled. The chunks it writes and its exit code (`None` for death by a signal) are parameters.
- `getLocalIp`, `changeHostname`, `isCloudflaredRunning` and the other scrapers that only pass command output through are not modelled.

## Findings

| source | as written | input that shows it | evidently intended | confidence | as-written member | corrected member |
|---|---|---|---|---|---|---|
| src/lib/discovery.ts:51-53 | `cleanup` rejects whenever no connection is open, five sweeps have been counted and no master has been seen. This already holds after the first batch of the fifth sweep, while four batches of that sweep are still to come. | Every host refuses until the fifth sweep, and in it host 100 (second batch) announces `http://10.0.0.100:3899`. | Reject only once the last sweep is over ("after all attempts"), so a master found later in the fifth sweep resolves the promise. | not executed | Discovery.LateMasterOutcomes | Discovery.Discover |
| system_info.ts:78 | The key `NVIDIA GeForce GTX 1660 TI` is mixed-case, but the Linux lookup (256-264) upper-cases the name first, so no name can reach this key. | `nvidia-smi` prints `NVIDIA GeForce GTX 1660 Ti, 6144 MiB`. The chip normalises to `NVIDIA GEFORCE GTX 1660 TI`, and the lookup gives zero FLOPS. | Spell the key in upper case like every other NVIDIA key, so the card reports 4.8/9.6/19.2. | not executed | Capabilities.GtxLookupAsWritten | Capabilities.GtxLookupCorrected |
| system_info.ts:398 | The pattern's alternative `compressor` needs `Pages` directly before it, but `vm_stat` prints `Pages occupied by compressor: N`. Meanwhile the sum at 408 reads the key `occupied by compressor`, which is never written. | The output line `Pages occupied by compressor: 1000` is counted as 0 pages. | Count the compressor pages in used memory, as the sum says it does. | not executed | VmStat.CompressorAsWritten | VmStat.CompressorCorrected |
| inframon.ts:144-166 | The rename handler takes the record with `nodes.get` before `await fetch(...)`, and after it sets that same object back under the id. A delete during the `await` is undone, and a record registered meanwhile from the same IP then shares the IP with the resurrected one. | Rename "a" (10.0.0.2). During the forwarded call, "a" is deleted and "c" registers from 10.0.0.2. The forwarded call succeeds. | Read the map again after the `await`, and rename only a record that is still there. | not executed | Registry.StaleRenameResurrects | Registry.RenameAfterDelete |
