# Dezhban, verified

Dezhban is a VPN kill switch: it keeps a default-deny outbound firewall in force, lets a
tunnel re-establish itself through it, and relaxes it only for bounded windows. This project
models the deterministic parts that make those promises and proves them, over all inputs, runs
and reachable states. Instants and durations are integers (nanoseconds); clocks, interface
samples, DNS answers, lookups and everything a user types are parameters.

| files | component |
|---|---|
| `RedialLedger`, `RedialExposure`, `RedialDeadline`, `RedialHistory` | the rolling budget behind the automatic redial window |
| `NetAddr`, `Posture`, `PfRules`, `NftRules`, `WfpRules`, `Agreement`, `Backends` | one policy compiled to three firewalls |
| `Config`, `ConfigFile`, `ConfigKeys`, `Reload`, `ReachableHelp` | configuration: normal form, validity, disk, live reload, and what it guarantees the ledger |
| `Watcher`, `Decider`, `Wizard`, `WizardRun` | step machines over arbitrary inputs |
| `LogLine`, `LogReader`, `LogScanner`, `Learned`, `Resolver`, `JsonTree` | parsers and stores |
| `Basics`, `Text` | vocabulary |

Objects whose methods update fields are classes; each method's postcondition equates the new
state with a function of the old one, and the theorems are about that function. Loops are
methods with loops.

## What is proved

**Redial budget.** The reference is the history: each window is open from the drop that was
helped to the first call after it that ends one, or for as long as was granted. Over every run at
non-decreasing times the open time inside any stretch one interval long is at most the budget.
(The tempting bound adds one window for the stretch's left edge; that window stays on the books
long enough for it not to be needed.) Reloads may change the settings between calls so long as no
interval is shorter and no budget larger than the ones the bound names. The whole answer to a
drop is a function of that history, and so is the instant a refusal names: the least one that
works. It never moves while it is waited for, and is honoured; exactly when it is not is
`HonouredIff`.

**Postures.** Each rule language has its own evaluator: pf's last-match-unless-quick, nft's
first-accept chain over drop, and Windows allow rules over a default action. All three
renderings are proved against one meaning, and that meaning against the fields of the input,
packet by packet. From it follow ordering, no leak, and the exact condition under which any two
of them agree on every packet.

**Configuration.** Every key of every file that loads is what was written or its own default, and a
file is refused by name exactly for a value its key does not take. Save and load is exact for
precisely the configs the file can express. Over any sequence of reloads a daemon runs startup's
restart keys with the latest file's live keys, and nothing else. The cross-key rule of the
validator is precisely what keeps every published instant honest.

**Step machines.** The debounced watcher and the hysteresis decider are proved equal to
definitions that look back over the samples and keep no counter; the decider's verdict is what
the latest agreeing readings said of the configured list. The wizard's wave loop asks each
question at most once, after its gate, and which questions appear is a function of what the user
enters. The watcher starts its counter at the limit when the first sample is down; that value is
looked at only if the sample nevertheless names a tunnel, which the live sampler never reports.

**Parsers and stores.** The windowed log reader yields what splitting the file whole would, and a
query exactly the records it does not hide; written log lines read back to what was written; a
token sequence decodes if and only if it is a written document, to what that means; recording in
the learned store leaves one entry by that name, holding what was seen, and the store evicts only
the oldest; the endpoint set is canonical.

## Where the code and its words disagree, and where a promise has a limit

The model follows the code.

- `docs/adr/0009-redial-budget.md:228` and `internal/config/config.go:297` say a "0" redial budget is
  coerced back to the default; `applyAdvanced` refuses it by name.
- `internal/config/reload.go:31-32` says two configs are equal for reload purposes exactly when
  their key values are equal. That holds where no list element holds a comma, a list of one blank
  counting as empty (`Reload.SameKeysIff`), and for live keys between configs that load
  (`Reload.NothingAppliedIff`). For a config that does hold a comma it fails: some other config,
  different in that one list, shows the same at every key (`Reload.CommaIsAmbiguous`), because
  lists are joined by commas first.
- `internal/logread/logread.go:381-383` says a line is what a line scanner would make of it. The
  reader takes off a second carriage return; exactly when that changes what a query returns is
  `LogScanner.SameRecordsIff`.
- An empty log level is saved as an absent key and comes back as "info"
  (`ConfigFile.RoundTripIff`).
- pf and nft need not mean the same for a policy that lists a raw IPv4-mapped address (section
  2.5.5.2 of RFC 4291) or a group with a blank name; `Backends.RenderAgreement` is the exact
  condition. No posture constructor produces the former. The latter is an input the type admits
  and nothing more: nothing populates `TunnelGroups` yet (`internal/firewall/policyset.go:20`).

## Model

| member | source | states |
|---|---|---|
| RedialLedger.Budget.constructor | internal/redial/redial.go:123 | A new budget has no episodes, no open window, no backoff and no cooldown. |
| RedialLedger.Budget.Grant | internal/redial/redial.go:134-235 | One decision: the answer and the whole new ledger are `Decide` of the old one, the value every theorem below is about. A window still open is closed first, stale episodes go, then cooldown, then budget. |
| RedialLedger.Budget.Commit | internal/redial/redial.go:215-235 | Opening a window appends one unsettled episode, makes it the open one, and sets backoff and cooldown; nothing else moves. |
| RedialLedger.Budget.Close | internal/redial/redial.go:242-253 | The open episode is settled at what it really used, between nothing and its grant; without one nothing changes. |
| RedialLedger.Budget.Remaining | internal/redial/redial.go:268-270 | Reading what is left changes nothing, is never negative, and is the budget less what the ledger would charge once aged to that instant. |
| RedialLedger.Budget.Total | internal/redial/redial.go:293-299 | The summing loop computes what all episodes cost, an open one at its grant. |
| RedialLedger.Budget.Expire | internal/redial/redial.go:346-363 | Compaction in place, writing what is kept over what was read: the ledger afterwards is the order-preserving filter of what is not retired, with the open window found again where it now stands. |
| RedialLedger.Budget.FirstAffordable | internal/redial/redial.go:369-388 | The walk over the episodes, oldest first, computes the published instant. |
| RedialExposure.RollingCostBound | internal/redial/redial.go:61-66 | Over every run of grants and closes at non-decreasing times, with settings that may change between calls: the windows ever granted that start in any half-open stretch one interval long cost at most the budget in total. The archive it speaks of never forgets; the ledger does. |
| RedialExposure.RollingExposureBound | internal/redial/redial.go:61-66 | Over every such run and for ANY stretch of time one interval long, wherever it is placed, the guard is left relaxed for at most the budget: no window straddling its start adds to it. |
| RedialExposure.RunKeepsInv | internal/redial/redial.go:134-253 | What every run keeps: the archive is a dropped prefix plus the ledger, everything dropped was settled a full interval ago, windows never overlap, and each fitted the budget as it opened. |
| RedialExposure.StepKeepsInv | internal/redial/redial.go:134-253 | Each single grant, refusal or close keeps that. |
| RedialExposure.LiveIsSuffix | internal/redial/redial.go:326-363 | Retired episodes form a prefix of the ledger, so expiry forgets only its oldest part. |
| RedialExposure.ArchiveOpenTimeBound | internal/redial/redial.go:61-66 | From cost to open time: disjoint windows, each fitted as it opened, are open at most the budget in any stretch one interval long. |
| RedialExposure.GrantFits | internal/redial/redial.go:200-235 | What is granted is no longer than the window configured and fits what remains; a refusal leaves the ledger closed and aged and nothing more. |
| RedialDeadline.RunIsSound | internal/redial/redial.go:134-253 | Every reachable ledger has its windows one after another, none in the future, and openIdx naming the open one or -1. |
| RedialDeadline.OneOpenWindow | internal/redial/redial.go:242-253 | Over every run an episode is unsettled exactly when openIdx names it, and it is then the newest: at most one is open. |
| RedialDeadline.ReadAgreesWithExpiry | internal/redial/redial.go:268-319 | The read-only total equals the total after expiry at the same instant, and expiry never takes an open window away. |
| RedialDeadline.GrantedIff | internal/redial/redial.go:134-235 | With nothing open, a drop is helped exactly when no cooldown holds it (or it shows recovery) and the aged ledger affords the least window. |
| RedialDeadline.NextEligibleIsDeadline | internal/redial/redial.go:365-388 | The instant published is the least one, not before now or the cooldown, at which the ledger affords a window: affordable there, unaffordable at every instant before. |
| RedialDeadline.RefusalOwes | internal/redial/redial.go:179-213 | Every refusal under a budget that affords a window owes exactly that instant. |
| RedialDeadline.AskWhileOwed | internal/redial/redial.go:134-235 | Once an instant is owed: asking from then on is helped; asking before is refused, short of recovery, and told the same instant again. |
| RedialDeadline.HeldWhileWaiting | internal/redial/redial.go:134-235 | However many drops and closes come before the instant, short of one that recovery evidence gets helped, every drop is refused with the same instant, which is still owed afterwards; the wait may hold drops with such evidence that the budget refuses. |
| RedialDeadline.DeadlineIsExact | internal/redial/redial.go:179-235 | End to end, after any run at all: a refused drop is refused with one and the same instant however often it asks earlier, with or without recovery evidence; only such evidence can get it helped sooner; and it is helped whenever it asks at or after that instant. |
| RedialDeadline.HonouredIff | internal/redial/redial.go:285-290 | For every reachable ledger and all settings, a published instant is honoured if and only if the budget is at least the least window and either something can roll off or the ledger, closed and aged, already affords one: all of it known before the decision. |
| RedialDeadline.RefusedChangesNothing | internal/redial/redial.go:179-213 | Helper for the flap theorems: a refused drop, and a close, leave the backoff count and the cooldown alone. |
| RedialDeadline.FlapDecay | internal/redial/redial.go:165-231 | In a run whose helped drops were all too fast, refusals of any kind between them, the k-th window is at most the k-th halving (never under the least window, four steps at most) and opens no sooner than the cooldown its predecessor earned. |
| RedialDeadline.FlapSpan | internal/redial/redial.go:165-231 | So the k-th window of a flap starts at least the sum of all the cooldowns so far after the first. |
| RedialHistory.ArchiveIs | internal/redial/redial.go:242-253 | The archive the bounds are proved of is the history told from calls and answers alone: each window runs from its drop to the first call after it that ends one, or for as long as was granted. |
| RedialHistory.ExposureBound | internal/redial/redial.go:61-66 | The promise of the budget over that history: in any stretch one interval long the windows were open for at most the budget, over every run and whatever is reloaded between. |
| RedialHistory.LedgerCharges | internal/redial/redial.go:256-319 | At any later moment the ledger charges exactly the time open of the windows that began within the interval, and a window still open in full. |
| RedialHistory.RemainingByHistory | internal/redial/redial.go:256-283 | So what Remaining reads off the budget is that charge. |
| RedialHistory.BackoffIs | internal/redial/redial.go:165-231 | The backoff count is the number of quick drops helped in a row, and the cooldown is what the latest of them earned, over every run. |
| RedialHistory.AnswerByHistory | internal/redial/redial.go:134-235 | The whole answer to a drop, outcome, length and reason, as a function of the history: switched off, cooling down, out of budget, or the full window, halved per quick drop in a row up to four times and never under the least window, or what is left. |
| RedialHistory.DeadlineByHistory | internal/redial/redial.go:365-388 | The instant a refusal names is the first, once nothing cools down, at which the history leaves enough for the least window. |
| ReachableHelp.LoadableSettings | internal/config/config.go:1456-1461 | Normal form and validity together give the ledger a positive interval and a budget that affords the least window, whenever the automatic window is on. |
| ReachableHelp.RunStaysLoadable | cmd/dezhban/main.go:576-605 | Whatever is reloaded, what a daemon runs is a config that would load. |
| ReachableHelp.NeverRefusedForever | internal/runner/runner.go:971-978 | After any run of drops, closes and reloads, good files and bad, a drop refused while the automatic window is on is helped at the published instant and at any later one: no reachable state refuses forever. |
| ReachableHelp.RejectedBudgetNeverOpens | internal/config/config.go:1456-1461 | And the cross-key rule rejects nothing that would work: below its floor no ledger ever opens a window. |
| Posture.CanonAddrs | internal/firewall/policyset.go:71-82 | Invalid addresses go, mapped ones are unmapped, order stays. |
| Posture.CanonTwice | internal/firewall/policyset.go:71-82 | Canonicalising twice changes nothing. |
| NetAddr.UnmapIs | internal/firewall/policyset.go:62-82 | Unmapping ::ffff:a.b.c.d gives the very a.b.c.d, for every one, and leaves every other address as it is. |
| Posture.CanonMembers | internal/firewall/policyset.go:71-82 | An address is in the result exactly when it is the unmapped form of a valid one given. |
| Posture.CountInvalid | internal/firewall/policyset.go:92-100 | Counts exactly what canonicalising drops. |
| Posture.LocalNetworkIs | internal/firewall/policyset.go:218-230 | Which destinations the eleven prefixes hold, as ranges: no public address is among them. |
| Posture.LocalNetworkPrefixesFor | internal/firewall/policyset.go:235-243 | The prefixes of one family, all of them and no others. |
| Posture.PoliciesAreCanonical | internal/firewall/policyset.go:109-171 | Every posture built by a constructor already has canonical addresses. |
| Posture.PoliciesAreAppliable | internal/firewall/policyset.go:138-150 | No constructor yields a guard without a tunnel, which Apply would refuse, and every posture keeps the endpoints reachable. |
| PfRules.VerdictOverBlock | internal/firewall/pf_darwin.go:296-377 | Under pf's rule (last match wins unless quick) quick passes over a closing block pass exactly what some quick pass matches. |
| PfRules.EmitTunnels | internal/firewall/pf_darwin.go:310-330 | The tunnel passes add exactly the packets on a named tunnel or on a group with a name. |
| PfRules.EmitTunnelProviders | internal/firewall/pf_darwin.go:433-440 | Adds exactly provider destinations on a tunnel. |
| PfRules.RenderRuleset | internal/firewall/pf_darwin.go:296-377 | For every policy the pf ruleset passes, off loopback, exactly what the policy promises as far as pf can read its groups; loopback always. |
| NftRules.SplitAddrFamilies | internal/firewall/nft_linux.go:376-386 | Every valid address lands, unmapped, in the list of its family, and nothing else does. |
| NftRules.Chain.constructor | internal/firewall/nft_linux.go:214-220 | A new chain has no rules. |
| NftRules.Chain.EmitDaddrAccepts | internal/firewall/nft_linux.go:361-373 | Adds exactly the canonical form of the addresses given, over both families. |
| NftRules.Chain.EmitTunnelProviders | internal/firewall/nft_linux.go:310-340 | Adds exactly provider destinations on a tunnel, one rule per matcher and family. |
| NftRules.Chain.EmitLocalNetwork | internal/firewall/nft_linux.go:345-355 | Adds exactly the local network when it is allowed. |
| NftRules.Chain.EmitWindowPortAccepts | internal/firewall/nft_linux.go:278-288 | Adds exactly the window's protocols and ports, udp and tcp if none is named. |
| NftRules.RenderNftRuleset | internal/firewall/nft_linux.go:214-274 | For every policy, canonical or not, the chain accepts loopback and otherwise exactly what the policy promises once its addresses are canonical. |
| WfpRules.ListAddrs | internal/firewall/wfp_windows.go:525-534 | The listed addresses are the canonical ones, as far as any packet can tell. |
| WfpRules.Script.constructor | internal/firewall/wfp_windows.go:367-376 | A new script has no rules. |
| WfpRules.Script.EmitTunnelProviderRules | internal/firewall/wfp_windows.go:469-475 | Adds exactly provider destinations on a named tunnel. |
| WfpRules.Script.EmitWindowPortRules | internal/firewall/wfp_windows.go:447-459 | Adds exactly the window's protocols and ports. |
| WfpRules.RenderBlockScript | internal/firewall/wfp_windows.go:367-443 | The script over its default action allows loopback addresses and otherwise exactly what the policy promises, interface classes aside; the default is allow exactly for an unrestricted window. |
| Backends.Render | internal/firewall/nft_linux.go:214-274 | For any policy at all, what each of the three renderings makes of it. |
| Agreement.AlikeIff | internal/firewall/policyset.go:46-82 | For every policy, and every part of its interface classes a rendering hears: it means the same as the canonical policy if and only if no address it reads is mapped (providers only where it hears a tunnel) and no class it misses decides a packet. |
| Agreement.InputAlikeIff | internal/firewall/policyset.go:109-171 | For policies built from inputs only the missed classes are left of that: always telling under guard and in a restricted window, never in an unrestricted one, and under full block if some provider is reachable no other way. |
| Agreement.SomewhereElse | internal/firewall/policyset.go:138-150 | No list of endpoints holds every public address, so under guard there is always a destination that tells. |
| Backends.RenderAgreement | internal/firewall/nft_linux.go:214-274 | For any policy at all, canonical or not, exactly when pf and nft pass the same off-loopback packets, and exactly when Windows and nft do; outside full block pf and nft agree just when the window is unrestricted, or no endpoint is mapped and no group name blank. |
| Backends.Compile | internal/firewall/policyset.go:109-171 | For every input and posture, what each backend passes as an if-and-only-if in the fields of the input (`LetsOut`): endpoints, the allowed LAN, DNS, tunnels, providers through a tunnel, and in a restricted window the listed protocols and ports. pf and nft agree on every off-loopback packet if and only if no group name is blank or no class decides anything; Windows and nft if and only if there are no groups or no class decides anything; and neither pf nor Windows ever passes more than nft. |
| Backends.PolicyLetsOut | internal/firewall/policyset.go:109-171 | Each posture's policy promises exactly what those fields say, packet by packet, for whichever groups a backend hears. |
| Backends.CompileEnforcing | internal/firewall/policyset.go:109-150 | No leak on any backend: under guard a packet is on a tunnel, or bound for an endpoint, or allowed by the DNS or LAN flag; under full block the tunnel serves providers only; the zero input passes nothing. |
| Backends.CompileLadder | internal/firewall/policyset.go:109-171 | On every backend, full block passes no more than guard, and guard no more than a switch window. |
| Backends.RenderMapped | internal/firewall/policyset.go:55-82 | Why canonicalising matters: for every mapped address and every policy listing it raw, an unrestricted window apart, pf cuts the endpoint off and nft keeps it. |
| Backends.RenderBlankGroup | internal/firewall/pf_darwin.go:380-382 | A blank group name, in every posture but an unrestricted window: for any destination not served otherwise (under full block, a provider) a packet to it that pf stops and nft passes. |
| Config.NormalTwice | internal/config/config.go:1066-1182 | Normalising a normalised config changes nothing. |
| Config.CountriesAreClean | internal/config/config.go:1074-1085 | Normalised country codes are upper-case, trimmed, not blank, and each there once. |
| Config.ConfigRef.constructor | internal/config/config.go:1066 | Holds the config to be normalised in place. |
| Config.ConfigRef.Normalize | internal/config/config.go:1066-1122 | The assignments in place produce exactly the normal form. |
| Config.ConfigRef.NormalizeCountries | internal/config/config.go:1067-1086 | An absent blocklist takes the default, an empty one stays empty, any other is cleaned and deduplicated. |
| Config.ConfigRef.NormalizeAdvanced | internal/config/config.go:1126-1182 | The advanced block is normalised and nothing outside it changes. |
| Config.Deduplicate | internal/config/config.go:1075-1084 | The loop with its seen-set keeps first occurrences in order. |
| Config.CleanEachProfile | internal/config/config.go:1094-1100 | Every profile is trimmed, none added, dropped or moved. |
| Config.ValidateProfiles | internal/config/config.go:1372-1396 | Accepts exactly the lists with valid names, unique whatever their case, and plausible endpoints, at least one each. |
| Config.ValidateAdvanced | internal/config/config.go:1465-1482 | Accepts exactly udp and tcp, and ports 1 to 65535. |
| Config.ValidateSwitchWindow | internal/config/config.go:1412-1463 | Accepts exactly windows within their maximum and a budget that can open one. |
| Config.Validate | internal/config/config.go:1315-1370 | No error exactly for valid configs, that is, for those with nothing to complain of in their fields; and the complaint made is a true one. |
| Config.ValidIff | internal/config/config.go:1315-1470 | A config is valid exactly when none of the fifteen complaints, each told of the fields it is about, is true of it. |
| ConfigFile.ApplyInPlace | internal/config/config.go:565-738 | The overlay on the config itself either reports the first key it refuses, or leaves exactly the overlaid config. |
| ConfigFile.ReadConfig | internal/config/config.go:527-562 | Loading as it is done, overlay then normalise then validate, computes the loaded config or why there is none. |
| ConfigFile.SaveLoad | internal/config/config.go:565-1010 | For every normal valid config: writing it, reading it over the defaults and normalising gives the config key for key, an opt-out it cannot spell coming back as the one sentinel. |
| ConfigFile.RoundTripIff | internal/config/config.go:853-1010 | The round trip is exact if and only if the log level is not empty and every opt-out is the Disabled sentinel. |
| ConfigFile.SavedConfigsLoad | internal/config/config.go:526-562 | Everything that can be saved loads again, and is valid. |
| ConfigFile.AdvancedRoundTrip | internal/config/config.go:742-846 | The advanced block, written only where it differs from the defaults, reads back to what it was; written not at all, the defaults are what it was. |
| ConfigFile.OptOutKey | internal/config/config.go:928-936 | An opt-out is written as zero and read back as the sentinel, never as the default. |
| ConfigFile.OptOutsSurvive | internal/config/config.go:640-690 | Helper, read off the branches: an absent window takes its default, "0" stays off, an explicit empty blocklist blocks nothing. |
| ConfigFile.LimitsRefuseZero | internal/config/config.go:800-846 | Helper, read off the branches: a written zero or negative redial budget or interval is refused, not defaulted. |
| ConfigKeys.LoadedKeys | internal/config/config.go:565-825 | For every file that loads and every one of its keys: what was written, cleaned, or the key's own default. A block left out reads as one with everything left out; the vpn flags default to true. |
| ConfigKeys.CountriesMembers | internal/config/config.go:1067-1085 | The normal blocklist holds exactly the cleaned, non-blank codes that were written. |
| ConfigKeys.RefusedIff | internal/config/config.go:565-825 | A file is refused by name if and only if some key holds a value it does not take, and the name is such a key's. |
| Reload.Changes | internal/config/reload.go:201-219 | The reported changes are those of the keys, in order, whose shown values differ. |
| Reload.SplitByRestart | internal/config/reload.go:266-275 | The split keeps every change on exactly one side, in order. |
| Reload.Classified | internal/config/reload.go:110-172 | Helper, read off the tables: every one of the 43 keys is in exactly one of them. |
| Reload.MergeFollowsTables | internal/config/reload.go:110-261 | The hand-written merge and the tables agree key by key: a live key takes the new value, every other keeps the old. |
| Reload.MergeTwice | internal/config/reload.go:231-261 | Only the last merged file matters, and merging a config into itself changes nothing. |
| Reload.DiffKeys | internal/config/reload.go:201-275 | A key is reported live, or as waiting for a restart, exactly when its value differs and the tables say so. |
| Reload.Daemon.constructor | cmd/dezhban/main.go:576 | A daemon starts out running its startup config. |
| Reload.Daemon.Reload | cmd/dezhban/main.go:576-605 | A file that does not load changes nothing and is reported; one that does is diffed against what runs, and only then merged. |
| Reload.RunningIsMerge | cmd/dezhban/main.go:566-605 | After any run of reloads, good and bad, a daemon runs startup's config with the latest good file's live keys. |
| Reload.ReloadRun | cmd/dezhban/main.go:566-605 | Key by key after any run: live keys have the latest file's value, restart keys startup's; the next file is reported against exactly that; asking again with it applies nothing, keeps the same keys waiting, and replaces no decider. |
| Reload.ReportNamesFields | internal/config/reload.go:35-90 | A report names a key, applied or waiting, exactly when the config field of that name is not what it was: every one of the 43 keys shows its own field. |
| Reload.MergeKeepsValid | internal/config/config.go:1315-1463 | The rules that tie keys together tie live keys only, so a mix of two valid configs is valid. |
| Reload.MergeKeepsNormal | internal/config/config.go:1066-1182 | A mix of two normal configs is normal. |
| Reload.RunStaysValid | internal/config/reload.go:221-261 | So what a daemon runs stays valid and normal over every run of reloads. |
| Reload.NothingAppliedIff | internal/config/reload.go:30-86 | Between configs that load, nothing is reported applied if and only if nothing is adopted, although lists are compared joined by commas. |
| Text.JoinIff | internal/config/reload.go:35-86 | Non-empty lists of parts without commas join alike if and only if they are one list. |
| Reload.SameKeysIff | internal/config/reload.go:30-86 | Where no list element holds a comma, two configs show the same at every key if and only if everything settable about them is the same, a list of one blank counting as empty. |
| Reload.NothingPendingIff | internal/config/reload.go:196-219 | Then a report names no key waiting for a restart if and only if a restart on the new file, its live keys aside, would change nothing settable. |
| Reload.CommaHidesChange | internal/config/reload.go:30-86 | In every config, at every list key, every list of two or more shows the same at all keys as that list with any two neighbours joined by a comma, though the two are different settings. |
| Reload.CommaIsAmbiguous | internal/config/reload.go:30-86 | Of a config that holds a comma the comparison is never exact: wherever an element of one of its lists has one, some config that differs in that list alone is a different setting and shows the same at every key. |
| Watcher.SetGrew | internal/netdetect/watch.go:129-140 | True exactly when the second list names something the first does not. |
| Watcher.Watch | internal/netdetect/watch.go:56-126 | Everything sent for a stream of samples is the first sample and what the step machine sends for the rest. |
| Watcher.WatchIsReferenceIff | internal/netdetect/watch.go:75-122 | Counting agrees with looking back (a sample is sent at once if it grows, otherwise when it completes the debounce in a row since the last one sent) on every stream, if and only if the first sample is up, or names nothing, or the debounce is one; so the counter's first value is otherwise never looked at. |
| Watcher.RunTracks | internal/netdetect/watch.go:75-122 | Step by step, the counter is the number of shrunk or down samples in a row since the last one sent, unknown ones skipped; only until a first sample shows anything may it hold the value it starts at when the first state is down, and then nothing looks at it. |
| Watcher.Covered | internal/netdetect/watch.go:105-122 | At every moment all tunnels of the latest sample that showed anything have been sent, and one that is up has been sent as up. |
| Watcher.Settles | internal/netdetect/watch.go:105-122 | From any state, as many agreeing samples as the debounce make what was last sent agree with them, whatever unknown samples lie between. |
| Watcher.DownEdge | internal/netdetect/watch.go:105-122 | A state sent as up is taken back only after the full debounce of samples since, each showing less. |
| Decider.Machine.constructor | internal/decision/decision.go:66-83 | A new decider allows, needs at least one reading, and blocks exactly the cleaned, non-blank codes. |
| Decider.Machine.Pending | internal/decision/decision.go:93-98 | Reports the count as it stands and changes nothing. |
| Decider.Machine.Evaluate | internal/decision/decision.go:114-142 | One reading: the whole new state, and the committed verdict as the answer. |
| Decider.Hysteresis | internal/decision/decision.go:110-142 | Over every history the committed verdict flips exactly when the last `need` successful readings since its last flip all disagree with it; failed readings could be deleted; the pending count is the run of disagreement. |
| Decider.FlipsAreRare | internal/decision/decision.go:110-142 | Every flip uses up `need` successful readings of its own, so there are at most successes divided by need. |
| Decider.VerdictIsLatest | internal/decision/decision.go:62-142 | Over every history the verdict is what the latest readings that agreed in a row, as many as hysteresis asks for, said: Block if their codes are on the configured list, Allow if not, Allow before there were any; and what is pending is the run of readings against it since. |
| Decider.VerdictTurns | internal/decision/decision.go:114-142 | As many listed readings in a row block, as many unlisted ones allow, and nothing else turns the verdict. |
| Decider.ReloadsKeepTheCount | cmd/dezhban/main.go:594-603 | Whatever is edited in between, the decider in force is the one the running config describes, having seen exactly the readings since its country list or hysteresis last changed. |
| Decider.VerdictIsCounted | cmd/dezhban/main.go:833-836 | So the verdict at any moment is the one looking back over those readings gives, told either way. |
| Wizard.Answers.constructor | internal/setup/answers.go:28-47 | Every question is bound at its default, by kind. |
| Wizard.Answers.Asks | internal/setup/answers.go:134-142 | A question is due exactly when it has no gate or its gate holds under the answers so far. |
| Wizard.Answers.WasAsked | internal/setup/answers.go:217-224 | True exactly when the question exists and its gate holds under the answers collected. |
| Wizard.Answers.Submit | cmd/dezhban/setup.go:202-234 | A form writes through the bindings of its own questions and no others. |
| Wizard.IsStillToAsk | cmd/dezhban/setup.go:397-405 | The loop over the set computes the recursive definition. |
| Wizard.FirstMatch | cmd/dezhban/setup.go:397-405 | With unique ids, a gate is still to come exactly when it is in this group, unasked, and due. |
| Wizard.NextWave | cmd/dezhban/setup.go:367-379 | The form is exactly the due questions of the group whose gates are not still to come, in order. |
| Wizard.GroupsOf | cmd/dezhban/setup.go:237-252 | Every group number once, ascending. |
| Wizard.InsertionSort | cmd/dezhban/setup.go:246-250 | Ascending, and a permutation. |
| WizardRun.WaveKeeps | cmd/dezhban/setup.go:78-94 | Submitting a wave, whatever is typed, leaves everything shown so far shown rightly: no gate behind it can still move. |
| WizardRun.GroupEnds | cmd/dezhban/setup.go:381-405 | When no question is due, every question of the group that was not shown has a gate that does not hold: none is stranded. |
| WizardRun.FormIsNew | cmd/dezhban/setup.go:349-379 | No question of the next form was shown before, and every gate of one was. |
| WizardRun.Setup | cmd/dezhban/setup.go:78-94 | For every user and every set of shallow, backward gates: the loop ends, no question is put twice, none before the form that answers its gate. A question appears if and only if it has no gate or its gate was left saying what it requires on the form it was on; at the end each holds what the user left there, or its default. |
| WizardRun.SetupAndRead | internal/setup/answers.go:206-224 | So wasAsked, read afterwards from the answers alone, means the user saw the question. |
| LogLine.NextPair | internal/logread/logread.go:216-250 | A pair always makes the rest of the line shorter, so parsing ends. |
| LogLine.ParseLine | internal/logread/logread.go:90-137 | The loop builds exactly the record of the line's pairs and of what it could not read, kept under its own key. |
| LogLine.LineReads | internal/logread/logread.go:212-250 | Whatever pairs are written, each value bare or quoted as the writer decides, the same pairs are read, in order, with nothing left over, provided the writer leaves bare only what holds no blank and no quote and its quoting is undone by decoding. |
| LogLine.WrittenIsRead | internal/logread/logread.go:87-137 | For any such writer, one that quotes empty values and values with an equals sign among them, a written record reads back to its time, level, message and attributes, empty ones included. |
| LogLine.OversizedIsRead | internal/logread/logread.go:184-210 | The raw text of the record for a line too long parses back to that very record, for every length. |
| LogReader.ReadLine | internal/logread/logread.go:355-374 | However wide the window, each read either makes the current line longer or ends it, and loses nothing of the rest. |
| LogReader.Take | internal/logread/logread.go:359-371 | What is held of a line is all of it up to the cap, and past the cap only its length. |
| LogReader.Emit | internal/logread/logread.go:374-385 | A finished line yields the record of the whole line, filtered. |
| LogReader.ReadFile | internal/logread/logread.go:310-412 | For every content and every window size the records are those of the lines taken one by one: none lost after a line too long, the last one kept without a newline; and never more than the cap is held. |
| LogReader.GapsAreShown | internal/logread/logread.go:190-200 | The record for a line too long survives every time filter, and every level filter but one for errors only. |
| LogReader.QueryReturns | internal/logread/logread.go:326-345 | A query returns exactly the records of the file's lines whose level it does not hide, told by name, and that are not older than it asks for. |
| LogScanner.Splits | internal/logread/logread.go:355-385 | What the reader splits a file into are the lines handed over, one by one. |
| LogScanner.ScannerSplits | internal/logread/logread.go:374-385 | And what a scanner makes of each, one carriage return off every line, the last included. |
| LogScanner.NothingParts | internal/logread/logread.go:374-385 | Where no line parts them, reader and scanner give the same records, whatever the library does. |
| LogScanner.KeptBlind | internal/logread/logread.go:330-342 | Past the first, carriage returns at the end of a line do not move it in or out of any query. |
| LogScanner.SameRecordsIff | internal/logread/logread.go:374-385 | For every file and every query, the reader returns a line scanner's records if and only if no line within the cap, not blank and kept by the query in one reading or the other, ends in two carriage returns and a newline. |
| LogScanner.TwoReturns | internal/logread/logread.go:380-384 | Every such line alone in a file: blank, it yields nothing either way; otherwise the reader's record has one carriage return less than the scanner's. |
| Learned.Store.constructor | internal/learned/learned.go:69-75 | A new store has no entries. |
| Learned.Store.Record | internal/learned/learned.go:110-133 | The whole new store, and what it holds, told of the call alone (`Wrote`): one entry by that name whatever its case, with the interface and source given, learned now if the name is new; of the addresses seen those kept are stamped now and known ones keep when they were first seen; as many endpoints as fit, none evicted for a less recent one; and every other entry untouched, in place. |
| Learned.Store.Prune | internal/learned/learned.go:138-159 | Compaction in place of entries and of their endpoints leaves exactly the pruned store, and returns how many endpoints are gone. |
| Learned.Store.Forget | internal/learned/learned.go:163-171 | Removes the first entry by that name and says whether there was one. |
| Learned.TouchEach | internal/learned/learned.go:121-131 | The loop over the addresses computes their touching one by one, invalid ones skipped. |
| Learned.CapEndpoints | internal/learned/learned.go:213-223 | Keeps the capped list and returns the number evicted. |
| Learned.RecencyIsStable | internal/learned/learned.go:217-219 | The sort is latest first and stable within one instant. |
| Learned.CapEvictsOldest | internal/learned/learned.go:213-223 | The cap holds, keeps only what was there and unique addresses unique, and no evicted endpoint is more recent than a kept one. |
| Learned.AllTouchedAre | internal/learned/learned.go:121-131 | Everything recorded is there, once, stamped now, a known address keeping its first sighting; everything else is as it was. |
| Learned.JustRecordedSurvive | internal/learned/learned.go:105-133 | Where nothing stored is as recent, the addresses just recorded all survive if and only if they fit the cap. |
| Learned.RecordReaches | internal/learned/learned.go:110-133 | In the store: only the entry by that name changes, and there what was recorded is present exactly when it fits. |
| Learned.RecordedIsWritten | internal/learned/learned.go:110-133 | That account holds of every recording into a store with unique names and addresses. |
| Learned.RecordKeepsSound | internal/learned/learned.go:190-200 | Recording keeps names unique whatever their case, addresses unique per entry, and the cap. |
| Learned.PruneKeepsSound | internal/learned/learned.go:138-159 | So does pruning. |
| Learned.PruneKeeps | internal/learned/learned.go:135-159 | What pruning leaves of an entry is fresh, is as many as fit the cap, is there exactly if anything fresh was, and leaves out nothing more recent than it keeps. |
| Learned.ForgetRemoves | internal/learned/learned.go:161-171 | Forgetting leaves no entry by that name in any case, and every other entry. |
| Learned.RunStaysSound | internal/learned/learned.go:105-171 | Over every run of recording, pruning and forgetting, all of that holds. |
| Resolver.Add | internal/netdetect/resolve.go:78-88 | One offer: first source wins, duplicates and invalid addresses do nothing, mapped ones are unmapped. |
| Resolver.Collect | internal/netdetect/resolve.go:90-123 | All tiers in order of trust; a lookup or discovery that fails costs only itself. |
| Resolver.FirstSourceIs | internal/netdetect/resolve.go:76-123 | The first offer of an address is the first tier, and the first hostname, to supply it; a tier that fails supplies nothing. |
| Resolver.CheckEndpointRouting | internal/netdetect/netdetect.go:231-246 | Flags exactly the endpoints some tunnel subnet contains, each with a subnet that does. |
| Resolver.Drop | internal/netdetect/resolve.go:134-146 | Drops exactly the flagged ones, from addresses and sources alike. |
| Resolver.ResolveWith | internal/netdetect/resolve.go:76-152 | The addresses are strictly ascending, canonical, and exactly those some tier supplied that no tunnel subnet contains; the sources have exactly those keys, each labelled by a tier that supplied it when no tier before it did, and among hostnames by the first that did. |
| Resolver.AscendingIsCanonical | internal/netdetect/resolve.go:24-27 | One set has one ascending sequence. |
| Resolver.SameAddrs | internal/netdetect/resolve.go:33-43 | Comparing element by element is true exactly when the two address sets are equal. |
| JsonTree.Decode | internal/redact/json.go:173-225 | The recursive decoder with its loops computes the functional one, and ends on every token stream. |
| JsonTree.PrintedDecodes | internal/redact/json.go:132-225 | Any value without repeated keys prints to tokens that decode to that value and to exactly what follows it. |
| JsonTree.WrittenFieldsDecode | internal/redact/json.go:180-205 | Any written fields, repeated keys and all, decode to what putting them one by one makes. |
| JsonTree.DuplicatesCollapse | internal/redact/json.go:200-204 | A key written more than once keeps its first position and its last value. |
| JsonTree.DecodedIsWellFormed | internal/redact/json.go:173-225 | Whatever decodes has no key twice, and is followed by the end of those very tokens. |
| JsonTree.WrittenDecodes | internal/redact/json.go:173-225 | Any document, its keys repeated as often as it likes at any depth, decodes to what it means: of each key the first place and the last value. |
| JsonTree.DecodedWasWritten | internal/redact/json.go:173-225 | And nothing else decodes: the tokens of whatever decodes are those of a document that means just that value. |
| JsonTree.Walk | internal/redact/json.go:238-260 | The loops that rewrite children in place compute the walked tree. |
| JsonTree.WalkRewritesLeaves | internal/redact/json.go:233-260 | The strings of the walked document are those of the document in order, each rewritten knowing its own chain of keys, none added, dropped or moved. |
| JsonTree.WalkKeepsSkeleton | internal/redact/json.go:233-260 | Walking changes no key, no order, no length, and nothing that is not a string. |
| JsonTree.Redact | internal/redact/json.go:30-70 | Exactly the token sequences that are one written document are rewritten, and what is printed is the walk of what the document means, which decodes to itself. |

## Left out

- The run loop, signals, sockets, file locks, service control, upgrades and the command file are I/O; the model takes their effects as inputs.
- The pf, nft and PowerShell processes, and the exact text of rules: rules are an abstract syntax with an evaluator, and interface classes are abstract.
- Loopback is compared nowhere across backends: pf and nft match it by interface, Windows by address.
- Interface names are taken to be words; a blank tunnel name is not distinguished from others. A group list of nothing but blanks, two or more, makes pf an empty interface list it would refuse to load; the model lets such a rule match nothing.
- IPv6 zones, and Unicode white space, case and normalisation: text is ASCII.
- Integers are unbounded; the saturation of 64-bit durations is not modelled. Instants count from Go's zero time, so none is negative, and an unarmed cooldown is that instant.
- Duration printing and parsing are library code, so a written duration is the number it denotes, or does not parse.
- `toFileConfig`, and the vpn and advanced blocks inside `apply`, are functions from value to value; sharing of slices between a config and its copies is not modelled.
- Where a config has several faults, which of them Validate reports is fixed by the method and not stated.
- Unknown keys in a config file, the atomic file write and permissions.
- Hostname plausibility is a parameter of validation.
- Preset conflicts, CLI commands, doctor prose, country names, completions and the app.
- Enumerating interfaces and tunnel subnets: samples and subnets are inputs. So is what the resolver and live discovery return.
- ConfigFile.Load: reports a file that cannot be read or is not JSON nowhere, because the model starts from the parsed file.
- LogLine.ParseLine: reads timestamps, decides what to quote and decodes Go quoted strings through parameters, because all three are library code; the round trips assume only that decoding undoes quoting and that what is left bare needs none.
- LogScanner.SameRecordsIff: assumes of the library that no timestamp ends in a carriage return and that one after a text does not change the quoted string the text starts with; agreement where no line parts the two needs neither.
- LogReader.ReadFile: does not model a read that fails half way, nor the chain of rotated files and the final limit.
- Learned.Store: does not model the sorted union of all addresses (Addrs), nor loading and saving the file.
- Wizard.Answers: does not model the list and text folding of Input, Set, or writing the answers to a config.
- WizardRun.Setup: the user finishes every form; aborting one ends the wizard with what was shown so far.
- JsonTree.Decode: starts from tokens; the lexer, its number syntax and the encoder's escaping are library code. An object is its ordered fields, where the source keeps a key list beside a map.
- JsonTree.Redact: what a string is rewritten to, the token legend and its rollback are not modelled; the rewriting is any function of the string and its path.
