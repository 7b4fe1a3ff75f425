# akuna core in Dafny

This project models two Rust systems that share one safety idea: a component
system whose wiring is statically checked for dangerous combinations of
capabilities before any component runs.

- **pypes**
  - The capability-flow analyser (`pypes_analyser`). It seeds every consumer
    with the capabilities its providers' interface names suggest. It then
    propagates capabilities from provider to consumer until a fixpoint. It
    reports the *lethal trifecta* (untrusted input + internal data +
    exfiltration) and the *deadly duo* (untrusted input + destructive).
  - The mock blueprint generator (`contract_agent`).
  - The generic runtime (`pypes/src/main.rs`). It holds the verify gate, the
    per-provider wiring map, the instantiate-until-no-progress loop and the
    entrypoint choice.
  - The declarative workflow engine and its template interpolation and
    value/JSON conversion (`workflow.rs`).
  - The `remote://` component fetcher and its checksum check (`fetcher.rs`).
  - The WIT interface lookup (`wit_loader.rs`).
- **calendar_privacy_poc host**
  - The mock `HostState`, with its access counters and fixed data.
  - The iCalendar event import (`calendar_impl.rs`).
  - The capability contract review (`cli.rs`).

Modules, one per file:

| file | module | models |
|---|---|---|
| `wrappers.dfy` | `Wrappers` | `Option` and `Result` |
| `strings.dfy` | `Strings` | the `str` operations the sources use: `starts_with`, `contains`, `find`, `split`, `trim`, ASCII lowercasing, byte-wise ordering |
| `analyser.dfy` | `Analyser` | `pypes_analyser/src/lib.rs` |
| `contract_agent.dfy` | `ContractAgent` | `contract_agent/src/main.rs` |
| `runtime.dfy` | `Runtime` | `pypes/src/main.rs` |
| `template.dfy` | `Template` | the `{{ step.output }}` interpolation of `workflow.rs` |
| `component_json.dfy` | `ComponentJson` | `val_to_json` / `json_to_val` of `workflow.rs` |
| `workflow.dfy` | `WorkflowEngine` | `execute` of `workflow.rs` |
| `fetcher.dfy` | `Fetcher` | `fetcher.rs` |
| `wit_loader.dfy` | `WitLoader` | `wit_loader.rs` |
| `host_state.dfy` | `CalendarHost` | the host of `calendar_privacy_poc/host/src/lib.rs` |
| `calendar_impl.dfy` | `CalendarImport` | `calendar_privacy_poc/host/src/calendar_impl.rs` |
| `cli.dfy` | `ContractReview` | `calendar_privacy_poc/host/src/cli.rs` |

How the model is built:

- Loops in the source are methods with loop invariants, proved against
  specification functions: `BuildGraph`, `SeedCapabilities`, `Propagate`,
  `CheckViolations`, `Verify`, `BuildWiringMap`, `InstantiateAll`,
  `Execute`, `LoadEvents`, `InspectImports`, `ReviewContract`.
- `HostState`, whose methods bump counters in place, is a class.
- Iteration over a Rust `HashMap` visits keys in an unspecified order. The
  model picks the next key with `:|`, so every order is covered.
- The wasm engine, the network, the file system, the stdin read, TOML,
  regex and `serde_json` parsing, and the SHA-256 digest are parameters.

## Model

| member | source | states |
|---|---|---|
| Analyser.Seed | pypes/pypes_analyser/src/lib.rs:80-102 | The specification of the seed: each component's set is the union of the capabilities inferred for the providers of the wires it consumes. `SeedCapabilities` is proved equal to it, and `SeedExfil` states its invariant. |
| Analyser.Round | pypes/pypes_analyser/src/lib.rs:111-130 | One round of the `while changed` loop: each consumer adds every capability of the providers it has an edge to, read from the snapshot. It keeps exactly the same keys. `PropagateRound` is proved equal to it, and `RoundGrows` and `RoundChanged` state its properties. |
| Analyser.Saturate | pypes/pypes_analyser/src/lib.rs:109-131 | Rounds repeated until one changes nothing, with the same keys as the seed. Termination comes from `RoundShrinksMissing`. `SaturateIsFixpoint`, `SaturateClosed`, `SaturateLeast` and `SaturateExtends` state what it computes. |
| Analyser.Expected | pypes/pypes_analyser/src/lib.rs:134-165 | The specification of the violations: one trifecta entry per component holding untrusted, internal and exfiltration, and one duo entry per component holding untrusted and destructive, each with its details text. `ViolationRules` proves both directions and `ExpectedComponents` proves that only components are reported. |
| Analyser.ExpectedComponents | pypes/pypes_analyser/src/lib.rs:134-165 | Every expected violation names a component of the map. |
| Analyser.InferCapabilities | pypes/pypes_analyser/src/lib.rs:174-206 | Network/http/search names give exfiltration and untrusted input, always together. Proposal exactly for `propose`. Internal data and destructive exactly for their keywords without `propose`. No capability is listed twice. |
| Analyser.BuildGraph | pypes/pypes_analyser/src/lib.rs:40-66 | The nodes are `host` plus the components. The edges are exactly the consumer→provider pairs of wires whose two ends are both nodes, with no duplicates. |
| Analyser.SeedCapabilities | pypes/pypes_analyser/src/lib.rs:78-102 | Each component starts with the union of the inferred capabilities of the providers wired into it. Wires whose consumer prefix is not a component are skipped. |
| Analyser.Propagate | pypes/pypes_analyser/src/lib.rs:109-131 | The result is the saturation of the seed under rounds of provider→consumer flow. |
| Analyser.PropagateRound | pypes/pypes_analyser/src/lib.rs:113-130 | One pass computes one round from the snapshot `current_caps`. `changed` is true exactly when some set grew. |
| Analyser.GatherInflow | pypes/pypes_analyser/src/lib.rs:115-129 | A consumer's new set is its own set plus its providers' snapshot sets. `grew` says whether it changed. |
| Analyser.RoundChanged | pypes/pypes_analyser/src/lib.rs:109-131 | A round changes the map exactly when some component's set changed. |
| Analyser.CheckViolations | pypes/pypes_analyser/src/lib.rs:134-165 | The violations are exactly the expected ones (a trifecta or duo entry per offending component, with its details text), without duplicates. |
| Analyser.Verify | pypes/pypes_analyser/src/lib.rs:34-172 | `Ok` exactly when the saturated capabilities contain no violation. Otherwise the error lists every violation once and is non-empty. |
| Analyser.RoundGrows | pypes/pypes_analyser/src/lib.rs:122-126 | A round only adds capabilities. |
| Analyser.SaturateExtends | pypes/pypes_analyser/src/lib.rs:109-131 | Propagation keeps every seeded capability. |
| Analyser.RoundShrinksMissing | pypes/pypes_analyser/src/lib.rs:109-131 | A round that changes something strictly shrinks the finite set of missing (component, capability) pairs, so the `while changed` loop ends. |
| Analyser.SaturateIsFixpoint | pypes/pypes_analyser/src/lib.rs:109-131 | The result of propagation is a fixpoint of a round. |
| Analyser.FixpointIsClosed | pypes/pypes_analyser/src/lib.rs:119-126 | At a fixpoint every consumer holds all capabilities of its providers. |
| Analyser.SaturateClosed | pypes/pypes_analyser/src/lib.rs:109-131 | The propagated map is closed under the provider→consumer edges. |
| Analyser.SaturateLeast | pypes/pypes_analyser/src/lib.rs:109-131 | Propagation adds nothing beyond what closure forces: any closed map above the seed is above the result. |
| Analyser.RoundKeepsExfil | pypes/pypes_analyser/src/lib.rs:181-184 | A round keeps the invariant "exfiltration implies untrusted input". |
| Analyser.SaturateKeepsExfil | pypes/pypes_analyser/src/lib.rs:109-131 | Propagation keeps that invariant. |
| Analyser.SeedExfil | pypes/pypes_analyser/src/lib.rs:90-102 | The seed satisfies that invariant. |
| Analyser.FinalKeys | pypes/pypes_analyser/src/lib.rs:81-83 | The final map has exactly the components as keys. |
| Analyser.FinalHasSeed | pypes/pypes_analyser/src/lib.rs:90-102 | A capability inferred for a wire's provider ends up in its consumer. |
| Analyser.FinalClosedOverWiring | pypes/pypes_analyser/src/lib.rs:56-66 | A consumer ends up with everything its wired provider component has. |
| Analyser.FinalLeast | pypes/pypes_analyser/src/lib.rs:109-131 | The final capabilities are the least closed map above the seed. |
| Analyser.FinalTrifecta | pypes/pypes_analyser/src/lib.rs:143-149 | In the final map exfiltration implies untrusted input, so the trifecta is exactly internal data plus exfiltration. |
| Analyser.ViolationRules | pypes/pypes_analyser/src/lib.rs:143-164 | A component has a trifecta entry exactly when it holds untrusted, internal and exfiltration. It has a duo entry exactly when it holds untrusted and destructive. It has no other entries. |
| ContractAgent.Heuristics | pypes/contract_agent/src/main.rs:47-58 | The four keyword flags and the proposal flag, read from the lowercased prompt. `HeuristicsIgnoreCase` proves that they do not depend on the prompt's case. |
| ContractAgent.Planned | pypes/contract_agent/src/main.rs:48-106 | The blueprint built from the flags, block by block in source order. `PlannedComponents`, `PlannedWiring`, `PlannedProviders`, `PlannedSingleDelete`, `PlannedNothingAsked` and `PlannedConsumers` state its exact content. |
| ContractAgent.ComponentOfWire | pypes/contract_agent/src/main.rs:63-99 | The analyser reads a generated wiring key's consumer back as the instance name it was built from. |
| ContractAgent.HeuristicsIgnoreCase | pypes/contract_agent/src/main.rs:47-58 | The keyword flags do not depend on the prompt's case. |
| ContractAgent.GenerateBlueprintFromPrompt | pypes/contract_agent/src/main.rs:46-107 | The blueprint built is the planned blueprint of the prompt's flags. |
| ContractAgent.GenerateIgnoresCase | pypes/contract_agent/src/main.rs:46-107 | A prompt and its lowercase form give the same blueprint. |
| ContractAgent.PlannedComponents | pypes/contract_agent/src/main.rs:52-105 | The components are the agent, the calendar when calendar or delete is asked, the search, and the emailer, each at `modules/<name>.wasm`. There is no workflow. |
| ContractAgent.PlannedWiring | pypes/contract_agent/src/main.rs:60-100 | The exact set of wiring keys for each combination of flags. |
| ContractAgent.PlannedProviders | pypes/contract_agent/src/main.rs:63-99 | Each wiring key goes to its fixed provider. |
| ContractAgent.PlannedNothingAsked | pypes/contract_agent/src/main.rs:52 | A prompt with no keyword gives the agent alone and no wiring. |
| ContractAgent.PlannedSingleDelete | pypes/contract_agent/src/main.rs:78-94 | A delete request wires the proposal interface when the prompt proposes, and the direct delete otherwise. Never both. |
| ContractAgent.PlannedConsumers | pypes/contract_agent/src/main.rs:60-100 | Every wiring key's consumer is a component of the blueprint. |
| ContractAgent.GeneratedConsumed | pypes/contract_agent/src/main.rs:60-100 | Every generated key is `name.iface` for a present, dot-free instance name. |
| ContractAgent.ConsumersPresent | pypes/contract_agent/src/main.rs:60-100 | Consumed keys have their consumer prefix among the components. |
| Runtime.RunGate | pypes/pypes/src/main.rs:63-83 | It exits with code 1 exactly when there are violations and `--allow-unsafe` is off. Otherwise it stops after analysis under `--verify-only`, or loads. |
| Runtime.Linkable | pypes/pypes/src/main.rs:114-116 | A provider key is linked exactly when it has a `.` and its prefix is not `host`. `BuildWiringMap` proves that its keys are exactly the providers of such keys. |
| Runtime.ProviderOf | pypes/pypes/src/main.rs:114-117 | The provider instance is the text before the key's first `.`. `Strings.Before` states that it contains no `.` and is a prefix of the key. |
| Runtime.ExportOf | pypes/pypes/src/main.rs:114-118 | The export is the text after the key's first `.`. `Strings.After` states that the key is the provider, a `.`, and the export. |
| Runtime.ImportOf | pypes/pypes/src/main.rs:120-121 | The import name is the consumer key after its first `.`, or the whole key when it has none. |
| Runtime.GroupWires | pypes/pypes/src/main.rs:112-124 | Every wire with a non-host, dotted provider is grouped under that provider as its (export, import) pair. Other wires are dropped. |
| Runtime.LinkLessIrreflexive | pypes/pypes/src/main.rs:127 | The ordering `sort` uses on (export, import) pairs is irreflexive. |
| Runtime.LinkLessTransitive | pypes/pypes/src/main.rs:127 | That ordering is transitive. |
| Runtime.LinkLessTotal | pypes/pypes/src/main.rs:127 | That ordering is total on distinct pairs. |
| Runtime.Insert | pypes/pypes/src/main.rs:127 | Insertion into a sorted list keeps it sorted, and adds exactly the element. |
| Runtime.Sort | pypes/pypes/src/main.rs:127 | The list is sorted and is a permutation of its input. |
| Runtime.Dedup | pypes/pypes/src/main.rs:128 | The loop's result is `Dedupped` of its input. It keeps the same elements with no two equal neighbours, and a sorted list becomes strictly sorted. |
| Runtime.Dedupped | pypes/pypes/src/main.rs:128 | The reference definition of `Vec::dedup`: an entry equal to the one just before it is dropped. `Dedup` is proved equal to it. |
| Runtime.DeduppedKeepsSeparated | pypes/pypes/src/main.rs:128 | Only adjacent repeats are removed: `[a,b,a]` stays as it is and `[a,a,b]` becomes `[a,b]`. |
| Runtime.SortDedup | pypes/pypes/src/main.rs:126-129 | Sort then dedup gives a strictly sorted list of exactly the input's elements. |
| Runtime.HeadIsLeast | pypes/pypes/src/main.rs:126-129 | The head of a strictly sorted list is its least element. |
| Runtime.StrictlySortedUnique | pypes/pypes/src/main.rs:126-129 | Two strictly sorted lists with the same elements are equal: the order in which the wires were met does not matter. |
| Runtime.BuildWiringMap | pypes/pypes/src/main.rs:112-129 | The keys are exactly the linkable providers. Each list is strictly sorted and holds exactly that provider's links. |
| Runtime.SubsequenceTransitive | pypes/pypes/src/main.rs:134-240 | Being a subsequence is transitive, so each retry round's pending list keeps the original order. |
| Runtime.TryRound | pypes/pypes/src/main.rs:132-240 | One round appends to the instances, in order, each pending name that instantiates. Each one instantiates given the instances before it. The rest stay pending in order. No name is lost or duplicated. Progress means the pending list shrank. No progress means nothing in it instantiates now. |
| Runtime.InstantiateAll | pypes/pypes/src/main.rs:108-241 | The instances and the pending names partition the components. Each instance instantiated given the earlier ones. Nothing left pending can instantiate given all instances. |
| Runtime.Entrypoint | pypes/pypes/src/main.rs:247 | The entrypoint is the one given, or `orchestrator`. |
| Runtime.SelectEntrypoint | pypes/pypes/src/main.rs:247-267 | It runs the entrypoint exactly when it was instantiated. |
| Template.Resolve | pypes/pypes/src/workflow.rs:69-84 | What a placeholder path stands for. `ResolveOutput`, `ResolveUnrecorded` and `ResolveOtherPath` state each of its three outcomes, and `OutputPathSplit` ties its `Before`/`After` reading to the source's `split('.')`. |
| Template.Interpolate | pypes/pypes/src/workflow.rs:87 | `replace_all`: the template scanned left to right, with each placeholder replaced by its resolution. `InterpolateLiteral` and `InterpolateOne` state what it returns. |
| Template.MatchFrom | pypes/pypes/src/workflow.rs:17 | A match at `i` starts with `{` and ends inside the text after at least `{{x}}`. With `MatchFromAt` and `MatchFromSound`, it matches exactly the placeholders. |
| Template.OutputPathSplit | pypes/pypes/src/workflow.rs:70-71 | A path splits into two parts with `output` second exactly when it is `<id>.output` with a dot-free id. |
| Template.Next | pypes/pypes/src/workflow.rs:87 | `replace_all` advances past a placeholder or by one literal character. |
| Template.PiecesLiteral | pypes/pypes/src/workflow.rs:87 | Text without `{` is scanned as literal characters. |
| Template.RenderAppend | pypes/pypes/src/workflow.rs:87 | Rendering distributes over concatenation. |
| Template.RenderChars | pypes/pypes/src/workflow.rs:87 | Literal characters render to themselves. |
| Template.InterpolateLiteral | pypes/pypes/src/workflow.rs:87 | A template without `{` is left unchanged. |
| Template.MatchFromAt | pypes/pypes/src/workflow.rs:17 | `{{`, spaces, a path of `[a-zA-Z0-9_.]`, spaces and `}}` match, capturing the path. |
| Template.MatchFromSound | pypes/pypes/src/workflow.rs:17 | The converse of `MatchFromAt`: every match is a `{{ ws path ws }}` placeholder at that position, capturing its path and ending after its `}}`. |
| Template.WsEndSpaces | pypes/pypes/src/workflow.rs:17 | The `\s*` run that is found consists of white space only. |
| Template.PathEndPath | pypes/pypes/src/workflow.rs:17 | The `[a-zA-Z0-9_.]+` run that is found consists of path characters only. |
| Template.PiecesPlaceholder | pypes/pypes/src/workflow.rs:87 | A placeholder is replaced as one hole and scanning resumes after `}}`. |
| Template.PlaceholderText | pypes/pypes/src/workflow.rs:17 | Text written as `a{{ ws path ws }}b` has a placeholder right after `a`, capturing `path`. |
| Template.PiecesOneAt | pypes/pypes/src/workflow.rs:87 | The text before the first `{` is literal, then comes the hole. |
| Template.InterpolateOne | pypes/pypes/src/workflow.rs:68-87 | The first placeholder is replaced by its resolved value, between the untouched prefix and the interpolated rest. |
| Template.ResolveOutput | pypes/pypes/src/workflow.rs:71-81 | `<id>.output` of a recorded step gives its string unquoted, and any other JSON value as its text. |
| Template.ResolveUnrecorded | pypes/pypes/src/workflow.rs:73-84 | `<id>.output` of an unrecorded step gives `UNRESOLVED(<id>.output)`. |
| Template.ResolveOtherPath | pypes/pypes/src/workflow.rs:70-84 | Any other path gives `UNRESOLVED(<path>)`. |
| ComponentJson.ValToJson | pypes/pypes/src/workflow.rs:148-240 | `val_to_json`, with the source's cases and its `match_mismatch` fallback. `RoundTrip` proves that `JsonToVal` inverts it on well-typed decodable values. `NotNull`, `OptionOfOptionCollapses` and `ResourceIsMismatch` state its edge cases. |
| ComponentJson.JsonToVal | pypes/pypes/src/workflow.rs:243-309 | `json_to_val`: each supported type read from its JSON form, with `Unsupported` for the others. `RoundTrip` and its cases prove it inverts `ValToJson`, and `MissingFieldFails` and `ShortTupleFails` give its error cases. |
| ComponentJson.ResourceIsMismatch | pypes/pypes/src/workflow.rs:239 | A resource handle, a value of a resource type, is encoded as the `match_mismatch(...)` text, whatever its type. |
| ComponentJson.Get | pypes/pypes/src/workflow.rs:266-274 | An object field is found exactly when some member has that key. |
| ComponentJson.Insert | pypes/pypes/src/workflow.rs:168-178 | After an insert the key maps to the new value and every other key is unchanged. |
| ComponentJson.Narrow | pypes/pypes/src/workflow.rs:247-254 | An `as` cast lands in the target integer range and leaves in-range values unchanged. |
| ComponentJson.NarrowCongruent | pypes/pypes/src/workflow.rs:247-254 | The cast is wrap-around: it differs from the input by a multiple of 2^width. |
| ComponentJson.FirstNamed | pypes/pypes/src/workflow.rs:168-178 | The lookup of a record field or variant case by name: the index of the first item with the name, or the length when there is none. |
| ComponentJson.Collect | pypes/pypes/src/workflow.rs:259-282 | A list of results succeeds exactly when all do, with their values in order. Otherwise it fails with the first error. |
| ComponentJson.FieldIndexDistinct | pypes/pypes/src/workflow.rs:266-274 | With distinct names, field `i`'s name is found at `i`. |
| ComponentJson.InsertAllOther | pypes/pypes/src/workflow.rs:168-178 | Inserting other keys leaves a key's lookup unchanged. |
| ComponentJson.InsertAllDistinct | pypes/pypes/src/workflow.rs:168-178 | With distinct keys every inserted field is found with its value. |
| ComponentJson.NotNull | pypes/pypes/src/workflow.rs:148-207 | Only an option's `None` maps to JSON `null`. |
| ComponentJson.RoundTrip | pypes/pypes/src/workflow.rs:148-309 | `json_to_val(val_to_json(v))` gives `v` back for every well-typed value of a type `json_to_val` reads: no enum, result, flags or handle, and no option directly inside an option. |
| ComponentJson.RoundTripList | pypes/pypes/src/workflow.rs:163-167 | The round trip for lists. |
| ComponentJson.RoundTripTuple | pypes/pypes/src/workflow.rs:179-185 | The round trip for tuples. |
| ComponentJson.RoundTripVariant | pypes/pypes/src/workflow.rs:186-200 | The round trip for variants, with and without a payload. |
| ComponentJson.RoundTripRecord | pypes/pypes/src/workflow.rs:168-178 | The round trip for records. |
| ComponentJson.OptionOfOptionCollapses | pypes/pypes/src/workflow.rs:202-207 | `Some(None)` of `option<option<_>>` encodes as `null` and decodes as `None`: the round trip fails there. |
| ComponentJson.MissingFieldFails | pypes/pypes/src/workflow.rs:266-274 | A record whose JSON lacks a field fails to decode. |
| ComponentJson.ShortTupleFails | pypes/pypes/src/workflow.rs:275-282 | A tuple whose JSON array is too short fails to decode. |
| WorkflowEngine.PrepareArgs | pypes/pypes/src/workflow.rs:66-122 | A step's arguments. `TemplateArgs` states the template branch and `NoTemplateArgs` states the no-input branch. |
| WorkflowEngine.StepCall | pypes/pypes/src/workflow.rs:25-122 | The instance check, the function lookup and the arguments, in source order. `MissingComponentStops` and `StepCallComponent` state what it checks and where the call goes. |
| WorkflowEngine.Record | pypes/pypes/src/workflow.rs:126-141 | The output capture of the first result slot. `RecordFirstResult` states that the first result is stored as JSON under the id, and that no result changes nothing. |
| WorkflowEngine.Run | pypes/pypes/src/workflow.rs:21-145 | The specification of the step loop. `Execute` is proved equal to it. `RunCallsExtend`, `RunCallsComplete`, `RunCallsInstantiated` and `RunOutputKeys` state what a run does. |
| WorkflowEngine.FuncRefOf | pypes/pypes/src/workflow.rs:35-48 | A dotted function name is split at its first `.` into interface and function. Otherwise it is looked up at the root. |
| WorkflowEngine.Execute | pypes/pypes/src/workflow.rs:11-146 | The loop's outcome is the step-by-step run of the specification from no outputs and no calls. |
| WorkflowEngine.MissingComponentStops | pypes/pypes/src/workflow.rs:25-26 | A step whose component is not instantiated stops the run there with `ComponentNotFound`. |
| WorkflowEngine.StepCallComponent | pypes/pypes/src/workflow.rs:25-49 | A prepared call goes to the step's component and function. |
| WorkflowEngine.RunCallsExtend | pypes/pypes/src/workflow.rs:21-142 | A run only appends calls, at most one per step. |
| WorkflowEngine.RunCallsComplete | pypes/pypes/src/workflow.rs:21-145 | A run without error makes exactly one call per step. |
| WorkflowEngine.RunCallsInstantiated | pypes/pypes/src/workflow.rs:25-130 | Every call goes to an instantiated component. |
| WorkflowEngine.RunOutputKeys | pypes/pypes/src/workflow.rs:125-141 | Outputs are only added, and only under the id of a step whose call returned: one of the first `StepsDone` steps. That excludes the step whose call failed and every step after the one that stopped the run. |
| WorkflowEngine.RecordFirstResult | pypes/pypes/src/workflow.rs:133-141 | The first result is recorded, as JSON, under the step id. No result leaves the outputs unchanged. |
| WorkflowEngine.TemplateArgs | pypes/pypes/src/workflow.rs:66-105 | With a template, a function that does not take exactly one argument is an error. A single string parameter receives the interpolated text. |
| WorkflowEngine.NoTemplateArgs | pypes/pypes/src/workflow.rs:107-122 | Without a template, only a function with no parameters can be called. Otherwise the error names the step. |
| Fetcher.ParseRemoteUri | pypes/pypes/src/fetcher.rs:30-50 | Without `remote://` the URI is invalid. A parsed spec has its parts free of `/` and its skill and version free of `@`. |
| Fetcher.ParseNeedsTwoParts | pypes/pypes/src/fetcher.rs:35-39 | No `/` after the scheme is a format error. |
| Fetcher.ParseSpec | pypes/pypes/src/fetcher.rs:35-50 | The URI parses exactly when the skill spec has exactly one `@`, into registry, skill and version. Anything after a further `/` is ignored. Otherwise it is a skill-spec error. |
| Fetcher.ParseWellFormed | pypes/pypes/src/fetcher.rs:28-50 | `remote://registry/skill@version` parses back into its three parts. |
| Fetcher.ParseRejectsSpecs | pypes/pypes/src/fetcher.rs:45-48 | Specs with no `@`, or with two, are rejected. |
| Fetcher.ComponentPath | pypes/pypes/src/fetcher.rs:53-57 | The cache path is `<cache>/<registry>/<skill>@<version>/component.wasm`. |
| Fetcher.CacheDir | pypes/pypes/src/fetcher.rs:53-55 | `cache_dir/registry/skill@version`. `ComponentPath` and `FetchVerified` state the paths under it. |
| Fetcher.Protocol | pypes/pypes/src/fetcher.rs:68 | `http` exactly for `localhost...` registries, otherwise `https`. |
| Fetcher.BaseUrl | pypes/pypes/src/fetcher.rs:68-69 | `proto://registry/skill/version`. `BaseUrlParts` and `UrlsShareBase` state its shape. |
| Fetcher.BaseUrlParts | pypes/pypes/src/fetcher.rs:68-69 | The base URL names the registry, skill and version, which split back out of it. |
| Fetcher.UrlsShareBase | pypes/pypes/src/fetcher.rs:75-76 | The component, manifest and WIT URLs are distinct files under the base URL. |
| Fetcher.VerifyChecksum | pypes/pypes/src/fetcher.rs:132-145 | Only `sha256:` checksums are accepted. Anything else is an error. |
| Fetcher.ChecksumAccepted | pypes/pypes/src/fetcher.rs:137-144 | A checksum verifies exactly when it is `sha256:` followed by the data's hex digest. |
| Fetcher.Fetch | pypes/pypes/src/fetcher.rs:29-130 | `fetch`, from the parse to the cache writes. Every `?` and error return gives its error, including those of `create_dir_all` and `fs::write`, together with the changes already made to the cache. `FetchCached`, `FetchVerified`, `WitBodyFailureKeepsCache`, `WrittenThenCached` and `FetchRejectsBadUri` state its outcomes. |
| Fetcher.FetchCached | pypes/pypes/src/fetcher.rs:53-62 | A cached component returns its path, and nothing is downloaded or changed. |
| Fetcher.FetchVerified | pypes/pypes/src/fetcher.rs:29-130 | Whatever the outcome, a fetch that changed the cache parsed its URI and first created the cache directory. It then wrote the component at the cache path, then beside it the manifest naming that component's digest, then possibly the interface file. A successful download wrote at least the first two. A success returns the cache path. |
| Fetcher.WitBodyFailureKeepsCache | pypes/pypes/src/fetcher.rs:72-122 | When the body of a successful `interface.wit` response cannot be read, the fetch fails with that request's error. The cache directory, the verified component and its manifest have already been written. |
| Fetcher.WrittenThenCached | pypes/pypes/src/fetcher.rs:59-61 | A fetch that wrote the component, even one that then failed, leaves the next fetch of the same URI answered from the cache. |
| Fetcher.FetchRejectsBadUri | pypes/pypes/src/fetcher.rs:30-48 | A URI that does not parse fails before any lookup, with nothing changed. |
| WitLoader.FindInterface | pypes/pypes/src/wit_loader.rs:31-40 | The exact name wins. Otherwise the text after the first `/` is tried. Otherwise nothing is found. |
| WitLoader.GetInterfaceExports | pypes/pypes/src/wit_loader.rs:26-48 | It succeeds exactly when an interface is found, with its function names in order. Otherwise the error names the interface and the available ones. |
| WitLoader.QualifiedNameFallback | pypes/pypes/src/wit_loader.rs:32-36 | `pkg/short` finds `short` when the full name is absent. |
| WitLoader.ExactNameFirst | pypes/pypes/src/wit_loader.rs:31 | The full name is used when present. |
| WitLoader.FallbackAfterFirstSlash | pypes/pypes/src/wit_loader.rs:34-36 | Only the text after the first `/` is tried as the fallback. |
| CalendarHost.FreeSlots | calendar_privacy_poc/host/src/lib.rs:50-61 | Two windows, both free. |
| CalendarHost.FreeSlotsOrdered | calendar_privacy_poc/host/src/lib.rs:50-61 | The first free window ends before the second starts. |
| CalendarHost.SensitiveEvents | calendar_privacy_poc/host/src/lib.rs:66-74 | One sensitive event. |
| CalendarHost.SearchResults | calendar_privacy_poc/host/src/lib.rs:89-95 | One search result. |
| CalendarHost.PredictState | calendar_privacy_poc/host/src/lib.rs:101-108 | The prediction is tired or energetic. `PredictTiredAtTwo` and `PredictEnergeticOtherwise` prove that it is tired exactly when the context mentions `14:00`. |
| CalendarHost.Completion | calendar_privacy_poc/host/src/lib.rs:110-118 | The reply is the leaking instruction or the default. |
| CalendarHost.PredictTiredAtTwo | calendar_privacy_poc/host/src/lib.rs:103-104 | Any context mentioning `14:00` predicts tired. |
| CalendarHost.PredictEnergeticOtherwise | calendar_privacy_poc/host/src/lib.rs:103-107 | A context without `14:00` is predicted energetic: the converse of `PredictTiredAtTwo`. |
| CalendarHost.CompletionInjected | calendar_privacy_poc/host/src/lib.rs:113-114 | Any prompt containing the injection text gets the leaking instruction. |
| CalendarHost.CompletionDefault | calendar_privacy_poc/host/src/lib.rs:115-116 | A prompt without it gets the default reply. |
| CalendarHost.SensitiveTitleAlerts | calendar_privacy_poc/host/src/lib.rs:84-87 | A query containing the sensitive event's title raises the leak alert. |
| CalendarHost.HostState.constructor | calendar_privacy_poc/host/src/lib.rs:26-34 | All counters start at zero. |
| CalendarHost.HostState.GetFreeSlots | calendar_privacy_poc/host/src/lib.rs:48-62 | Adds one calendar access, leaves the other counters, and returns the free slots. |
| CalendarHost.HostState.GetEventsSensitive | calendar_privacy_poc/host/src/lib.rs:64-75 | Adds one calendar access, leaves the other counters, and returns the sensitive event. |
| CalendarHost.HostState.Search | calendar_privacy_poc/host/src/lib.rs:80-96 | Adds one search access and returns the fixed result. It alerts exactly when the query mentions `Secret Project` or `Room 101`. |
| CalendarHost.HostState.PredictUserState | calendar_privacy_poc/host/src/lib.rs:101-108 | Adds one LLM access and returns the prediction for the context. |
| CalendarHost.HostState.Complete | calendar_privacy_poc/host/src/lib.rs:110-118 | Adds one LLM access and returns the completion of the prompt. |
| CalendarHost.OrchestratorRun | calendar_privacy_poc/modules/orchestrator/src/lib.rs:18-29 | The orchestrator guest's calls (free slots, the prediction for `14:00 context`, then a search for the state) cost one calendar, one search and one LLM access. They find two slots and one result, the user is predicted tired, and the query is `events for <state> person`. |
| CalendarImport.EventOf | calendar_privacy_poc/host/src/calendar_impl.rs:18-35 | The fold of an event's properties over the defaults. `EventFields` ties it to `LastValue`, and `LastWins`, `OtherIgnored` and `NoPropertiesDefaults` state its behaviour. |
| CalendarImport.Emitted | calendar_privacy_poc/host/src/calendar_impl.rs:17-45 | The events with a start, in order. `EmittedIff`, `EmittedAppend` and `EmittedOne` state which ones are emitted. |
| CalendarImport.Loaded | calendar_privacy_poc/host/src/calendar_impl.rs:15-45 | The calendars read in order, failing at the first parse error. `LoadedErrIff` and `LoadedAppend` state what it returns. |
| CalendarImport.ValueOf | calendar_privacy_poc/host/src/calendar_impl.rs:24-33 | A property's value, or the empty string when it has none. |
| CalendarImport.LastValue | calendar_privacy_poc/host/src/calendar_impl.rs:18-33 | An absent property keeps its default. |
| CalendarImport.EventFields | calendar_privacy_poc/host/src/calendar_impl.rs:18-35 | Each field of an event is the last value of its property, with defaults `Untitled` and empty. |
| CalendarImport.LastWins | calendar_privacy_poc/host/src/calendar_impl.rs:24-33 | A later property overrides an earlier one of the same name. |
| CalendarImport.OtherIgnored | calendar_privacy_poc/host/src/calendar_impl.rs:32 | Unknown properties change nothing. |
| CalendarImport.NoPropertiesDefaults | calendar_privacy_poc/host/src/calendar_impl.rs:18-44 | An empty event is `Untitled` with empty fields, and is not emitted. |
| CalendarImport.EmittedAppend | calendar_privacy_poc/host/src/calendar_impl.rs:17-45 | Events from consecutive inputs are emitted in order. |
| CalendarImport.EmittedOne | calendar_privacy_poc/host/src/calendar_impl.rs:36-44 | An event is emitted exactly when its start is not empty. |
| CalendarImport.EmittedIff | calendar_privacy_poc/host/src/calendar_impl.rs:17-45 | Exactly the events with a start are emitted, and no more events than were read. |
| CalendarImport.LoadedErrIff | calendar_privacy_poc/host/src/calendar_impl.rs:15-16 | Loading fails exactly when some calendar fails to parse, and then with the parse error. |
| CalendarImport.LoadedAppend | calendar_privacy_poc/host/src/calendar_impl.rs:15-45 | Loading concatenates the events of consecutive calendars. |
| CalendarImport.LoadEvents | calendar_privacy_poc/host/src/calendar_impl.rs:8-49 | The nested loops compute the specified load: an open error, a parse error, or the emitted events in order. |
| CalendarImport.DeriveFreeSlots | calendar_privacy_poc/host/src/calendar_impl.rs:54-68 | The events are ignored and the two fixed free windows are returned. |
| ContractReview.Inspected | calendar_privacy_poc/host/src/cli.rs:24-45 | A component's capability imports, or none when printing failed. `InspectImports` is proved equal to it. `ImportsOfIff` and `ImportsArePrefixed` state which names it holds. |
| ContractReview.Approved | calendar_privacy_poc/host/src/cli.rs:71-72 | The approval test on the trimmed, lowercased answer. `ApprovedPadded`, `BlankLineRefuses` and `NoRefuses` state its cases. |
| ContractReview.ImportName | calendar_privacy_poc/host/src/cli.rs:29-34 | Only a trimmed line starting with `(import ` gives a name, and the name contains no quote. |
| ContractReview.ImportNameShape | calendar_privacy_poc/host/src/cli.rs:32-34 | The name is the text between the first two quotes of the trimmed line. |
| ContractReview.ImportNameOf | calendar_privacy_poc/host/src/cli.rs:29-34 | An indented `(import "name" ...)` line gives `name`. |
| ContractReview.Kept | calendar_privacy_poc/host/src/cli.rs:35-36 | A name is kept exactly when it starts with `local:calendar-privacy`. |
| ContractReview.ImportsOfIff | calendar_privacy_poc/host/src/cli.rs:24-37 | A name is collected exactly when some line imports it as a capability. |
| ContractReview.ImportsArePrefixed | calendar_privacy_poc/host/src/cli.rs:35-36 | Every collected name has the capability prefix. |
| ContractReview.ImportsOfRepeated | calendar_privacy_poc/host/src/cli.rs:24 | Collection is a set: repeated imports collapse. |
| ContractReview.TrimStartSpaces | calendar_privacy_poc/host/src/cli.rs:30 | `trim` drops exactly the leading white space. |
| ContractReview.TrimEndSpaces | calendar_privacy_poc/host/src/cli.rs:30 | `trim` drops exactly the trailing white space. |
| ContractReview.TrimAround | calendar_privacy_poc/host/src/cli.rs:30 | A word surrounded by white space trims to the word. |
| ContractReview.ApprovedPadded | calendar_privacy_poc/host/src/cli.rs:71-72 | `y` or `yes` in any case, with surrounding white space, approves. |
| ContractReview.BlankLineRefuses | calendar_privacy_poc/host/src/cli.rs:68-72 | An empty answer does not approve. |
| ContractReview.NoRefuses | calendar_privacy_poc/host/src/cli.rs:71-72 | `no` does not approve. |
| ContractReview.InspectImports | calendar_privacy_poc/host/src/cli.rs:24-45 | The line loop collects the component's capability imports. A failed print gives none. |
| ContractReview.ReviewContract | calendar_privacy_poc/host/src/cli.rs:9-73 | It gives each component's capability imports. It reports "all safe" exactly when none has any. Approval is the answer's check alone. |
| Strings.Split | pypes/pypes/src/fetcher.rs:35 | `str::split` on one character, which `fetch` uses on the URI and the skill spec and the template engine uses on an output path. There is at least one piece, the first being the text before the first separator, and no piece contains the separator. `JoinSplit` proves that rejoining gives the text back, and `SplitJoin` peels off one piece. |
| Strings.JoinSplit | pypes/pypes/src/workflow.rs:70 | Rejoining the pieces of a split with the separator gives back the original text. |
| Strings.SplitJoin | pypes/pypes/src/fetcher.rs:45 | Splitting a text that starts with a piece free of the separator gives that piece, then the split of the rest. |
| Strings.StartsWith | calendar_privacy_poc/host/src/cli.rs:31 | `str::starts_with`: the prefix is no longer than the text, and the text begins with it. `Before` and `ContractReview.Kept` rely on it. |
| Strings.Contains | calendar_privacy_poc/host/src/lib.rs:84 | `str::contains`: the text occurs at some offset. `ContainsInfix` states it for every text placed inside another. |
| Strings.Trim | calendar_privacy_poc/host/src/cli.rs:30 | `trim`, as `trim_start` then `trim_end`. `TrimNoop` and `ContractReview.TrimAround` state what it keeps. |
| Strings.ContainsInfix | calendar_privacy_poc/host/src/lib.rs:103 | `str::contains`: a text contains every text placed inside it. |
| Strings.TrimNoop | calendar_privacy_poc/host/src/cli.rs:30 | `trim` leaves alone a text that neither starts nor ends with white space. |
| Strings.SplitN2 | pypes/pypes/src/main.rs:114 | `splitn(2, c)`: two pieces exactly when the separator occurs, split at its first occurrence, and otherwise the whole text. |
| Strings.TrimStart | calendar_privacy_poc/host/src/cli.rs:30 | `trim_start`: what remains is a suffix starting with a non-white-space character, and everything dropped is white space. |
| Strings.TrimEnd | calendar_privacy_poc/host/src/cli.rs:30 | `trim_end`: what remains is a prefix ending with a non-white-space character, and everything dropped is white space. |
| Strings.ToLower | calendar_privacy_poc/host/src/cli.rs:71 | `to_lowercase` on ASCII: same length, and each character lowercased. |
| Strings.LessIrreflexive | pypes/pypes/src/main.rs:127 | Rust's byte-wise string order, which `sort` uses, never puts a string before itself. |
| Strings.LessTransitive | pypes/pypes/src/main.rs:127 | The string order is transitive. |
| Strings.LessTotal | pypes/pypes/src/main.rs:127 | Of two different strings, one comes before the other. |
| Strings.LessAsymmetric | pypes/pypes/src/main.rs:127 | No two strings each come before the other. |
| Strings.IndexOf | calendar_privacy_poc/host/src/cli.rs:32 | `find` on one character: the first position holding it, or the length when the text does not contain it. |
| Strings.Before | pypes/pypes/src/main.rs:114-117 | The text before the first separator. It is a prefix without the separator, and it is the whole text exactly when the separator is absent. |
| Strings.After | pypes/pypes/src/main.rs:114-118 | The text after the first separator, so that the text is `Before`, the separator, then `After`. |

## Left out

- I/O is not modelled: reading files, the console output, stdin, the network, directory creation and writes. Reads and requests are parameters. Whether a directory creation or write succeeds is a parameter too. The cache changes are the `effects` list of `Fetcher.Fetch`.
- Fetcher.Fetch: a write that fails is not recorded as a change, so a partly written file is not modelled.
- The async runtime, the wasm engine and linker, component instantiation, calls into components, and `wasm-tools print` are not modelled. Each is an oracle parameter: `ok` in `Runtime.TryRound`, the environment in `WorkflowEngine`, `printed` in `ContractReview.Component`.
- The instantiation of linked host functions inside the runtime's retry loop (`pypes/pypes/src/main.rs:146-230`) is not modelled, because it is wasm linker plumbing.
- The parsers are not modelled: TOML (`toml::from_str`), the iCalendar parser, `serde_json` parsing and printing, and Rust's `Debug` text. They are parameters or given as already-parsed values.
- `CalendarHost.HostState`: the counters are `u32` in the source but `nat` here. The `+= 1` overflow is not modelled, because the mock never approaches 2^32 calls.
- `Strings.ToLower` lowercases ASCII only, while Rust's `to_lowercase` is Unicode-aware. For the approval check the result is the same, because no other character lowercases to `y`, `e` or `s`. For the agent's keyword flags it is an approximation.
- `ComponentJson.RoundTrip`: the round trip is stated for types without an option directly inside an option. `OptionOfOptionCollapses` shows why: it fails there in the source.
- Floating-point values are not modelled (`float32`/`float64` in `val_to_json`/`json_to_val`), because they have no exact model here.
- SHA-256 is not modelled; the digest is a parameter.
- Some text is not modelled: the `TupleArity` error text, and the `char` conversion's `unwrap` panic on an empty string, which is a decode error here.
- The `Workflow` and `Step` types do not appear in the analyser source shown, where `Blueprint` has only `components` and `wiring`. `contract_agent` sets `workflow: None`. The model follows `contract_agent`: `Blueprint` has an optional workflow, and its step fields are the ones `workflow.rs` reads.
- Paths are sequences of components, and `PathBuf::join` is concatenation. The runtime's `base_dir.join(rel_path)` is not modelled.
- `lines()` is modelled as splitting on `\n`. The `\r` it also drops is removed by `trim` anyway.
- `test-server.py`, `middleware.rs`, the guest modules (apart from the orchestrator's sequence of host calls) and the host's `main.rs` and tests are not part of this model. The guest's `Debug` text of a state is a parameter of `CalendarHost.OrchestratorRun`.
- `ComponentFetcher::new`, `get_cache_dir` and `WitLoader::load` are not modelled: they read the environment or a file. The cache directory and the parsed package are parameters.
- The fetcher's `interface.wit` download stores the body it receives without inspecting the text. The file is written; or it is skipped with a warning when there is no response or a failure status; or the fetch fails when the body cannot be read or the write fails.
