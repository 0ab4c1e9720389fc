# binrun, modelled in Dafny

binrun is a local platform for running scripts from a browser terminal. Its
Go side does three things. It routes messages over NATS subjects. It keeps
one panel layout per terminal session and renders it through server-sent
events. It runs Python scripts whose `##DATA##` output lines become
structured events. Beside it are Python scripts for data work:
- an RCRAInfo downloader;
- a matcher that ties regulated facilities to customer accounts;
- a compliance-metrics and trend builder;
- a Salesforce domain matcher;
- a Gong call-transcript summariser.

This project models the deterministic core of both sides, states what
that code promises, and proves it. There is one Dafny module per source
file.

Go platform:
- `subject.dfy`, `core_utils.dfy`: NATS subject matching (`*`, `>`) and
  CSS selectors, in `util/subject.go` and its copy in `internal/utils.go`.
  The two copies are proved to compute the same functions.
- `schema.dfy`, `layout_commands.dfy`, `builders.dfy`, `json.dfy`: message
  subjects, the subject builders and patterns, and command validation. The
  command builder works over decoded JSON, and publishing validates first.
- `layout.dfy`, `platform_layout.dfy`: the layout tree (binary splits,
  even-N stacks, leaves, components, documents, commands), its validation
  and the subscriptions it needs. Both the current version and the older
  three-kind one are modelled.
- `presets.dfy`, `converter.dfy`, `runtime_presets.dfy`,
  `core_presets.dfy`: preset placeholder substitution, layout building
  (including its write through a shared `Defaults` map), conversion to
  components, and the script-job preset.
- `terminal.dfy`, `commands.dfy`: the terminal tokenizer, flag parsing,
  help dispatch, `script run` options, `load`, and the `echo`, `env`,
  `view` and `ls` session commands.
- `layout_manager.dfy`: the panel store and its replace, merge and
  panel-only updates, and subject dispatch.
- `script_runner.dfy`: environment layering, `KEY=VALUE` rendering, the
  repository-root search and `##DATA##` line classification.
- `renderer.dfy`: renderer selection for a set of subjects and the
  renderer pattern table.

Python scripts:
- `account_profile.dfy`, `rcra_searcher.dfy`: search-term normalisation
  (name variants, domain cleaning, domain validity), the word-bounded name
  pattern, the six match flags, and the match table with its
  delete-then-append batch update.
- `account_violations.dfy`, `compliance_trends.dfy`: the look-back window,
  the per-view row semantics, resolution days, hit rate, last-event dates,
  `build_metrics`, contact and account rows, and the trend primitives
  `slope_pct`, `spike_year` and `emerging_type`. The trend primitives work
  over exact `real` arithmetic.
- `salesforce_match.dfy`: domain-cell cleaning, e-mail domains, counting
  matching e-mails and the domain join.
- `download_rcrainfo.dfy`: `to_snake_case`, the SQL built for a data folder,
  and the dataset-key guard.
- `analyze_gong.dfy`: the company name of a call, the account and duration
  filters, the participant map, transcript flattening, and `main` up to
  the model client.

`wrappers.dfy` holds `Option` and `Result`. `strs.dfy` holds the string
primitives of Go's `strings` package and of Python's `str` that the
modules share.

How behaviour is modelled:
- Loops that build a result step by step are methods with loops, each
  proved against a function that states what it computes. Searches that
  return from inside nested loops, such as `get_company_name`, and list
  comprehensions are recursive functions.
- Objects the source mutates are classes, among them the match table, the
  session store and the command builders.
- Go map iteration order is a choice the proofs do not depend on.
- A Python exception is an `Err` result that carries the exception's
  class name, followed by its message where the script raises one with a
  message (the dataset-key guard, the missing `account` and the missing
  Gemini key, whose `EnvironmentError` is Python 3's `OSError`). A Go
  error is an `Err` carrying its message.
- A Go panic is the `Fault` outcome.
- Files, the environment and the clock are parameters. So are the
  public-suffix lookup, the repository's file-exists test and floating
  point parsing.

## Model

| member | source | states |
|---|---|---|
| Subject.SubjectMatches | util/subject.go:7-31 | the token scan with its early returns decides `Matches`: equal strings, or token-wise matching on `.` where `*` takes one token and `>` the rest |
| Subject.MatchesReflexive | util/subject.go:8-10 | every pattern matches itself, both by the shortcut and token by token |
| Subject.TokensReflexive | util/subject.go:13-30 | every token list matches itself under the scan |
| Subject.LiteralTokens | util/subject.go:13-30 | token lists without `*` or `>` match exactly when they are equal |
| Subject.LiteralPatternIff | util/subject.go:11-30 | a pattern without `*` or `>` tokens matches a subject iff the two strings are equal |
| Subject.PointwiseMatch | util/subject.go:17-30 | equal-length token lists match when each pattern token is `*` or equals the subject's token |
| Subject.MatchPointwise | util/subject.go:17-30 | without `>`, a match means equal lengths and each pattern token is `*` or the subject's token |
| Subject.NoGreaterSameLength | util/subject.go:30 | without `>` a token match implies equal token counts |
| Subject.MatchSameTokenCount | util/subject.go:11-30 | without a `>` token, a matching pattern and subject split into equally many tokens |
| Subject.StarMatchesOneToken | util/subject.go:17-21 | `*` matches a subject exactly when it is one token, the empty token included |
| Subject.StarNeedsToken | util/subject.go:18-20 | `*` fails when no subject token is left |
| Subject.GreaterMatchesAll | util/subject.go:15-16 | `>` matches every subject |
| Subject.GreaterMatchesRemainder | util/subject.go:15-16 | `q.>` matches `q` itself and every `q.rest` |
| Subject.ParentMatchesGreater | util/subject.go:15-16 | `a.>` matches `a` |
| Subject.TokensPrefixGreater | util/subject.go:13-16 | tokens followed by `>` match the same tokens followed by anything |
| Subject.SplitAppend | util/subject.go:11-12 | splitting `x.y` on `.` gives the pieces of `x` then those of `y` |
| Subject.ReplaceSubject | util/subject.go:36-41 | the replaced text has no `.`, `*` or `>` and is no shorter than the subject |
| Subject.SelectorFor | util/subject.go:35-42 | the selector starts with `#sub-` and contains no `.`, `*` or `>` |
| Subject.SelectorNotInjective | util/subject.go:36-41 | `a.b` and `a-b` have the same selector |
| Subject.SelectorPlain | util/subject.go:36-41 | a subject without `.`, `*` or `>` is kept verbatim |
| Subject.SelectorIsSequentialReplace | util/subject.go:36-41 | the one-pass replacer equals three successive replace-all passes, `.` first |
| CoreUtils.SubjectMatches | internal/utils.go:8-32 | the duplicate token scan decides the same relation as util/subject.go's `SubjectMatches` on all inputs |
| CoreUtils.SelectorFor | internal/utils.go:39-46 | the duplicate selector equals util/subject.go's `SelectorFor` on all inputs |
| CoreUtils.SameReplacement | internal/utils.go:40-45 | this package's character rewrite is the util replacer |
| RuntimePresets.OrWildcard | internal/runtime/presets.go:63-68 | an empty script or job becomes `*`, and any other value is kept |
| RuntimePresets.BuildScriptPreset | internal/runtime/presets.go:60-71 | the script preset returns exactly four subjects |
| RuntimePresets.ScriptPresetIsBuilders | internal/runtime/presets.go:69-70 | the four subjects are the schema's started, exit, stdout and stderr builders for the script and job, in that order |
| RuntimePresets.StaticIgnoresArgs | internal/runtime/presets.go:35-49 | the order and chat presets return the same list for any arguments |
| RuntimePresets.NoArgsGivesPatterns | internal/runtime/presets.go:60-70 | with no arguments the preset is the schema's four job subject patterns |
| RuntimePresets.PresetFilters | internal/runtime/presets.go:69-70 | for dot-free names, each preset subject catches a job's event iff the script argument is `*` or that script and the job argument is `*` or that job |
| RuntimePresets.PresetMatchesPatterns | internal/runtime/presets.go:69-70 | for dot-free names each built subject matches the schema's pattern for its kind |
| CorePresets.BuildScriptPreset | internal/presets.go:21-30 | the older script preset returns four subjects, empty parameters becoming `*` |
| CorePresets.AgreesWithRuntime | internal/presets.go:21-30 | it returns the runtime `buildScriptPreset` subjects for the same script and job on all inputs |
| CorePresets.StaticAgreesWithRuntime | internal/presets.go:14-17 | the static orders and chat lists are the runtime's fixed presets |
| Messages.CommandSubject | internal/messages/schema.go:36-54 | every command publishes on one of the three static command subjects |
| Messages.ValidateTerminalCommand | internal/messages/schema.go:214-222 | validation succeeds iff both the session id and the command text are non-empty, and the session id is checked first with its own message |
| Messages.EventSubjectsAreBuilders | internal/messages/schema.go:99-278 | each event's `Subject()` equals the subject builder of its kind; an output event picks the stdout or stderr builder by its stream |
| Messages.PatternTexts | internal/messages/schema.go:42-53 | the pattern constants are the builders with `*` in every name position |
| Messages.JobSubjectTokens | internal/messages/schema.go:252-274 | a job subject built from dot-free names splits into exactly six tokens with the names in positions 3 and 5 |
| Messages.ScriptSubjectTokens | internal/messages/schema.go:244-246 | a script subject built from a dot-free name splits into four tokens with the name third |
| Messages.FreezeSubjectTokens | internal/messages/schema.go:276-278 | a freeze subject built from a dot-free session id splits into five tokens with the id fourth |
| Messages.JobFilterMatches | internal/messages/schema.go:252-274 | a job filter whose positions are `*` or names catches a job subject iff each position is `*` or the subject's name |
| Messages.ScriptFilterMatches | internal/messages/schema.go:244-246 | the same for the created subject's single name position |
| Messages.ScriptFilterMatches5 | internal/messages/schema.go:248-270 | the same for the create-error and job-error subjects |
| Messages.FreezeFilterMatches | internal/messages/schema.go:276-278 | a freeze filter catches a session's freeze subject iff its position is `*` or that session id |
| Messages.JobStartedFilter | internal/messages/schema.go:252-254 | the started builder applied to a filter matches it applied to names iff each position is `*` or equal |
| Messages.JobStdoutFilter | internal/messages/schema.go:256-258 | the same for stdout subjects |
| Messages.JobStderrFilter | internal/messages/schema.go:260-262 | the same for stderr subjects |
| Messages.JobExitFilter | internal/messages/schema.go:264-266 | the same for exit subjects |
| Messages.JobDataFilter | internal/messages/schema.go:272-274 | the same for data subjects |
| Messages.CreatedFilter | internal/messages/schema.go:244-246 | the same for created subjects |
| Messages.CreateErrorFilter | internal/messages/schema.go:248-250 | the same for create-error subjects |
| Messages.JobErrorFilter | internal/messages/schema.go:268-270 | the same for job-error subjects |
| Messages.BuildersMatchPatterns | internal/messages/schema.go:42-278 | for dot-free names every builder's subject matches its pattern constant |
| Messages.DottedNameMisses | internal/messages/schema.go:244-246 | a script name containing `.` produces a created subject that the created pattern does not match |
| MessageBuilders.ValidateScriptCreate | internal/messages/builders.go:186-200 | a create command validates iff its name matches `^[a-zA-Z0-9_-]+$` and its type is `python` or `typescript`; the missing name, bad charset and bad type messages come in that order |
| MessageBuilders.ValidateScriptRun | internal/messages/builders.go:202-211 | a run command validates iff its name matches the pattern; missing name and bad charset have their own messages |
| MessageBuilders.ValidNameIsToken | internal/messages/builders.go:186 | a name accepted by the pattern has no `.` and is neither `*` nor `>` |
| MessageBuilders.ValidNamesRouteExactly | internal/messages/builders.go:186 | for accepted names the created subject matches the wildcard pattern, and one name's subject matches another's only when the names are equal |
| MessageBuilders.SprintAll | internal/messages/builders.go:305-308 | the args loop prints every element with `Sprint`, one string per element, in order |
| MessageBuilders.SprintEnv | internal/messages/builders.go:317-320 | the env loop gives a map with the same keys, each value printed with `Sprint` |
| MessageBuilders.BuildCommand | internal/messages/builders.go:288-337 | the method builds exactly the command `BuildCommandSpec` describes: string fields only when they are strings, a non-empty string correlation id, env values printed with `Sprint`, args from an array or whitespace-split string, and an error for unknown types |
| MessageBuilders.BuildAcceptsCommandTypes | internal/messages/builders.go:288-346 | building succeeds iff the type name is one of `GetCommandTypes`; any other name yields `unknown command type: <name>` |
| MessageBuilders.BuildRoundTrip | internal/messages/builders.go:290-332 | the form fields of a create command, a terminal command, or a run command with string env values rebuild that command |
| MessageBuilders.BuildDoesNotValidate | internal/messages/builders.go:288-297 | building from empty form data succeeds with a command that `Validate` then rejects with `script_name is required` |
| MessageBuilders.CreateCommandRef.constructor | internal/messages/builders.go:18-24 | a new create command carries the name and type with an empty correlation id |
| MessageBuilders.CreateCommandRef.WithCorrelation | internal/messages/builders.go:26-30 | only the correlation id changes |
| MessageBuilders.RunCommandRef.constructor | internal/messages/builders.go:32-35 | a new run command carries only its name |
| MessageBuilders.RunCommandRef.WithEnv | internal/messages/builders.go:43-47 | only the env map changes |
| MessageBuilders.RunCommandRef.WithCorrelation | internal/messages/builders.go:49-53 | only the correlation id changes |
| MessageBuilders.EventRef.WithCorrelation | internal/messages/builders.go:64-153 | the event becomes `WithCorrelationId` of its old value |
| MessageBuilders.EventRef.WithError | internal/messages/builders.go:128-132 | only the exit event's error text changes |
| MessageBuilders.WithCorrelationId | internal/messages/builders.go:64-153 | the new event has the given correlation id and the same kind and subject |
| MessageBuilders.CorrelationRestores | internal/messages/builders.go:64-153 | putting the old correlation id back restores the event exactly, so no other field moved |
| MessageBuilders.Publisher.PublishCommand | internal/messages/builders.go:227-244 | a command failing `Validate` is never sent and returns the wrapped validation error; a broker error is wrapped; otherwise the command is appended on its own subject, and every sent command is valid |
| MessageBuilders.Publisher.PublishEvent | internal/messages/builders.go:246-263 | events always validate; a broker error is wrapped; otherwise the event is appended on its own subject |
| Json.SprintValue | internal/messages/builders.go:305-320 | the text rendering of a decoded JSON value, as fmt.Sprint shows it when a value is put into a string |
| LayoutCommands.UnmarshalIntoMap | internal/messages/layout_commands.go:34-37 | decoding the node into a map succeeds iff the text is well-formed JSON whose value is an object or `null` |
| LayoutCommands.ValidatePanelSet | internal/messages/layout_commands.go:23-39 | a panel-set command validates iff the session id, panel and node are present, the panel is one of the four, and the node decodes into a map; the missing-field and bad-panel errors are checked first |
| LayoutCommands.AnyObjectIsAcceptedNode | internal/messages/layout_commands.go:33-38 | an object that is no layout node at all still passes validation |
| LayoutCommands.ValidateApplyPreset | internal/messages/layout_commands.go:64-72 | an apply-preset command validates iff both ids are present |
| LayoutCommands.ApplyPresetIgnoresRest | internal/messages/layout_commands.go:64-72 | the args, panel and mode never change the verdict; the mode default is set on a copy |
| LayoutCommands.ValidateLayoutPatch | internal/messages/layout_commands.go:91-99 | a patch command validates iff the session id and patch are present, whatever its type |
| Layout.Validate | internal/layout/layout.go:70-87 | a node of unknown kind is rejected with `invalid node type 'unknown'`; every other kind goes to its own validator |
| Layout.ValidateLeaf | internal/layout/layout.go:89-99 | a leaf validates iff it has a subscription and none of the command, defaults, split, at, children, direction or items fields |
| Layout.ValidateCommand | internal/layout/layout.go:101-115 | a command node validates iff it has a command, none of the layout fields, and a script when the command is `ScriptRunCommand` |
| Layout.ValidateBinary | internal/layout/layout.go:117-139 | a binary split validates iff it has a direction split, a listed fraction, both children present and valid, and no subscription, direction or items |
| Layout.ValidateEven | internal/layout/layout.go:141-177 | an even split validates iff its split is `even-N` with one digit N between 2 and 5, its direction is horizontal or vertical, it has exactly N items, all present and valid, and no subscription, at or children |
| Layout.ValidateItems | internal/layout/layout.go:168-175 | the item loop accepts iff every item from the given index on is present and valid |
| Layout.ValidateComponent | internal/layout/layout.go:180-191 | a component node validates iff it has a component and no other field |
| Layout.ValidateDocument | internal/layout/layout.go:194-205 | a document node validates iff it has at least one path and no other field |
| Layout.ValidIsKnown | internal/layout/layout.go:70-87 | a valid node is never of unknown kind |
| Layout.ValidDocumentIsBare | internal/layout/layout.go:194-205 | a valid document node is the zero node with its paths set |
| Layout.LeafIgnoresScript | internal/layout/layout.go:89-99 | changing a leaf's script never changes its verdict |
| Layout.EvenBounds | internal/layout/layout.go:148-156 | `even-6` fails the count check and `even-10` fails the one-digit format |
| Layout.ValidateLayout | internal/layout/layout.go:207-231 | a layout validates iff its panel map is non-nil, every name is a panel name and every present node is valid; an error names some offending panel, and bad names are reported before bad nodes |
| Layout.GetSubscriptions | internal/layout/layout.go:262-284 | the recursive walk returns `Subs`: the leaf subscriptions, first child before second and items in order |
| Layout.PanelSubscriptions | internal/layout/layout.go:286-297 | the panels are each visited once in some order, and the result concatenates their subscriptions in that order |
| Layout.ValidSubsNonEmpty | internal/layout/layout.go:262-284 | every subscription a valid tree lists is non-empty |
| Layout.TerminalRequiresFreeze | internal/layout/layout.go:307-313 | a terminal component requires exactly the session's freeze subject |
| Layout.SubsAreRequired | internal/layout/layout.go:262-333 | on a valid tree every leaf subscription is also a required subscription |
| Layout.GetRequiredSubscriptions | internal/layout/layout.go:335-353 | the result is the strictly sorted listing of every subject some panel requires, whatever order the panels were visited in |
| Layout.CollectRequired | internal/layout/layout.go:340-343 | the collected list holds exactly the subjects some panel requires |
| Layout.DedupSorted | internal/layout/layout.go:346-351 | dropping adjacent duplicates from a sorted list gives a strictly sorted list with the same members |
| Layout.ParseLayout | internal/layout/layout.go:233-249 | empty input is no layout and no error; a decode error is wrapped as `parse layout:`; a decoded layout is returned iff it validates, otherwise the error is prefixed `validate layout:` |
| PlatformLayout.Validate | internal/platform/layout.go:33-71 | an unknown node is rejected with `invalid node type`; a leaf validates iff none of split, at, children, direction or items is set |
| PlatformLayout.ValidateBinarySpec | internal/platform/layout.go:73-95 | a binary split validates iff it has a direction split, a listed fraction, both children present and valid, and no subscription, direction or items |
| PlatformLayout.ValidateEvenSpec | internal/platform/layout.go:97-133 | an even split validates iff `even-N` has one digit N from 2 to 5, a valid direction, exactly N present and valid items, and no subscription, at or children |
| PlatformLayout.ValidateItemsSpec | internal/platform/layout.go:124-131 | the item loop accepts iff every item from the given index on is present and valid |
| PlatformLayout.ValidateLayout | internal/platform/layout.go:135-159 | a layout validates iff its panel map is non-nil, all names are panel names and every present node is valid; an error names some offending panel |
| PlatformLayout.ParseLayout | internal/platform/layout.go:161-177 | empty input is no layout and no error; decode errors are wrapped; a decoded layout is returned iff it validates |
| PlatformLayout.GetSubscriptions | internal/platform/layout.go:190-212 | the walk returns the leaf subscriptions in tree order |
| PlatformLayout.PanelSubscriptions | internal/platform/layout.go:214-225 | each panel is visited once in some order, and the result concatenates their subscriptions in that order |
| PlatformLayout.Embed | internal/platform/layout.go:10-45 | an old-tree node as a new-tree node keeps its own fields and leaves the fields the old tree lacks empty |
| PlatformLayout.EmbedKind | internal/platform/layout.go:33-45 | the old and new kind functions classify a node and its embedding alike |
| PlatformLayout.SameAcceptance | internal/platform/layout.go:47-133 | the old and the new validator accept exactly the same trees |
| PlatformLayout.SameSubscriptions | internal/platform/layout.go:190-212 | both trees list the same subscriptions in the same order |
| LayoutPresets.ArgValue | internal/layout/presets.go:61-64 | the value used for a parameter is never empty: the argument when given and non-empty, the wildcard otherwise |
| LayoutPresets.NoBraceUnchanged | internal/layout/presets.go:56-70 | a pattern without `{` comes out of substitution unchanged |
| LayoutPresets.UndeclaredUntouched | internal/layout/presets.go:59-66 | the placeholder of a parameter the preset does not declare survives every substitution |
| LayoutPresets.DeclaredReplaced | internal/layout/presets.go:60-66 | a lone declared placeholder becomes the argument, or `*` when it is missing or empty |
| LayoutPresets.Rewritten | internal/layout/presets.go:60-66 | parameters are substituted one after another, so an argument that holds a later parameter's placeholder is rewritten again |
| LayoutPresets.Build | internal/layout/presets.go:54-70 | one subject per pattern, in the same order, each with every declared parameter substituted first to last |
| LayoutPresets.SubstituteDefaults | internal/layout/presets.go:84-88 | the substituted defaults have the same keys, and non-string values are kept as they were |
| LayoutPresets.BuildCommands | internal/layout/presets.go:72-93 | one descriptor per command with its message type kept and its script substituted; the copy shares the preset's defaults map, whose string values are rewritten in place |
| LayoutPresets.SubstituteCommand | internal/layout/presets.go:76-89 | one command's parameter loop leaves its script fully substituted and rewrites the string values of its defaults map in place, keeping the other values and the keys |
| LayoutPresets.ReplaceStrings | internal/layout/presets.go:84-88 | one pass of the defaults loop rewrites every string value and keeps every key and non-string value |
| LayoutPresets.CopyDefaults | internal/layout/presets.go:113-126 | a nil defaults map stays nil; any other becomes a new substituted map |
| LayoutPresets.BuildNode | internal/layout/presets.go:128-152 | a nil node stays nil; otherwise the four text fields are substituted, split, at and direction are copied, and document paths are dropped |
| LayoutPresets.BuildKeepsShape | internal/layout/presets.go:143-150 | the rebuilt tree has the same nil-ness everywhere: children, the items slice and every item |
| LayoutPresets.BuildLayout | internal/layout/presets.go:95-159 | no layout gives none; otherwise a non-nil panel map with the same names, each node rebuilt, and an empty map when the preset's map is nil |
| LayoutPresets.BuildLayoutShape | internal/layout/presets.go:154-157 | every built panel keeps its tree shape |
| Converter.ConvertNode | internal/layout/converter.go:19-46 | a nil node converts to nil; otherwise the seven copied fields are equal to the source's |
| Converter.ConvertToComponents | internal/layout/converter.go:7-17 | a nil layout or nil panel map converts to nil; otherwise the same panel names, each node converted |
| Converter.ConvertKeepsShape | internal/layout/converter.go:33-44 | the copy has nil in the same places as the source: children, the items slice and every item |
| Converter.ConvertForgetsComponent | internal/layout/converter.go:24-32 | the component and document paths are not copied, so nodes differing only there convert alike |
| RuntimeTerminal.TokenizeCommand | internal/runtime/terminal.go:656-686 | the character loop returns `Tokens`: the tokens ended by unquoted spaces, then the pending token if it is non-empty |
| RuntimeTerminal.TokensNonEmpty | internal/runtime/terminal.go:671-684 | no token is empty, so an empty quoted string yields no token |
| RuntimeTerminal.TokensKeep | internal/runtime/terminal.go:663-684 | the tokens concatenated are the input minus its delimiters: a quote opening a run, the same character closing it, and each unquoted space; the other quote character is kept |
| RuntimeTerminal.ScanKeeps | internal/runtime/terminal.go:663-684 | after any prefix the scanner is inside a quote exactly when `QuoteAfter` says so, with the same quote character, and has kept exactly the non-delimiters |
| RuntimeTerminal.QuoteFreeTokens | internal/runtime/terminal.go:663-684 | without quote characters the tokenizer equals splitting on spaces and dropping empty pieces |
| RuntimeTerminal.ParseFlags | internal/runtime/terminal.go:723-742 | the loop returns `ParsedFlags`: a `--key` with a following item takes it as its value, a later value wins, and every other item is a positional |
| RuntimeTerminal.FlagValuesFollowKeys | internal/runtime/terminal.go:730-735 | every flag value is the item right after a `--key` item |
| RuntimeTerminal.PlainItemsArePositional | internal/runtime/terminal.go:738-739 | items that are not flags all become positionals in order, and no flag is set |
| RuntimeTerminal.FlagPairs | internal/runtime/terminal.go:730-735 | a flag takes the next item even when that item is a flag, and a repeated key keeps the later value |
| RuntimeTerminal.TrailingFlag | internal/runtime/terminal.go:730-739 | a flag with nothing after it is kept as a positional |
| RuntimeTerminal.HelpTopicsCovered | internal/runtime/terminal.go:70-155 | the empty topic is the general overview, and an unknown topic gives `no help available for <topic>` |
| RuntimeTerminal.HelpReply | internal/runtime/terminal.go:175-194 | help answers iff there is a word and the first is `help` or the last is `-h` or `--help` |
| RuntimeTerminal.HelpWordFirst | internal/runtime/terminal.go:180-187 | a leading `help` wins over a trailing `--help`, and bare `help` is the general overview |
| RuntimeTerminal.TrailingHelpFlag | internal/runtime/terminal.go:189-193 | a trailing `-h` or `--help` gives the help of the first word whatever lies between |
| RuntimeTerminal.ReadOption | internal/runtime/terminal.go:384-423 | one pass of the option switch yields the error `OneOption` gives, or the input and at most one environment entry it contributes before the remaining options |
| RuntimeTerminal.ReadInput | internal/runtime/terminal.go:385-395 | `--input` fails without a value or with invalid JSON; otherwise it sets the input and no environment entry |
| RuntimeTerminal.ReadFile | internal/runtime/terminal.go:396-410 | `--file` fails without a path, on a read error or on invalid JSON; otherwise it sets the input to the file's contents and no environment entry |
| RuntimeTerminal.ReadEnv | internal/runtime/terminal.go:411-420 | `--env` fails without a value or without `=`; otherwise it adds exactly one environment entry |
| RuntimeTerminal.ParseRunOptions | internal/runtime/terminal.go:373-424 | the option loop returns the session environment overridden by the options `OptionsFrom` reads, or the first option error |
| RuntimeTerminal.ThenThen | internal/runtime/terminal.go:383-424 | reading options in two steps gives the same input and environment as reading them at once |
| RuntimeTerminal.ScriptRun | internal/runtime/terminal.go:364-443 | fewer than three tokens give the usage reply; a published command names the third token, carries the last input option or `{}`, the session environment under the `--env` overrides, and the command text as correlation id |
| RuntimeTerminal.BadOptionPublishesNothing | internal/runtime/terminal.go:386-423 | an option error is the reply itself, and nothing is published |
| RuntimeTerminal.OptionErrorsAreErrors | internal/runtime/terminal.go:386-423 | every option error message starts with `error: ` |
| RuntimeTerminal.EnvSplitsAtFirstEquals | internal/runtime/terminal.go:411-420 | `--env` splits at the first `=`: the key has none and the value keeps any later ones |
| RuntimeTerminal.NoInputOption | internal/runtime/terminal.go:426-429 | without `--input` or `--file` no input is set, so the command carries `{}` |
| RuntimeTerminal.SessionEnvUnderOverrides | internal/runtime/terminal.go:373-419 | the published environment has the session's keys and the overrides' keys, each override's value, and the session value of every key not overridden |
| RuntimeTerminal.LoadSubjects | internal/runtime/terminal.go:799-807 | the stored subjects are sorted and a permutation of the preset's subjects plus the freeze subject when it was missing |
| RuntimeTerminal.LoadSubjectsContent | internal/runtime/terminal.go:802-807 | the stored list holds exactly the preset's subjects and the freeze subject, and grows by one only when the freeze subject was missing |
| RuntimeTerminal.LoadReply | internal/runtime/terminal.go:789-819 | `load` writes a record iff a preset id is given and known and the bucket opens and accepts the write; the record holds the load subjects and no environment |
| RuntimeTerminal.LoadScriptPreset | internal/runtime/terminal.go:789-819 | loading the script preset with a script and a job subscribes the session to the four job subjects and its own freeze subject |
| RuntimeTerminal.EnvLines | internal/runtime/terminal.go:588-592 | the `env list` lines are sorted, one per variable |
| RuntimeTerminal.EnvReply | internal/runtime/terminal.go:537-613 | the env handler answers iff the first word is `env`, and writes only for `set` or `clear` when the bucket opens and accepts the write |
| RuntimeTerminal.EnvSetChangesOneKey | internal/runtime/terminal.go:553-581 | `env set` stores one key, the text before the first `=` of the joined words, with the text after it as value; every other variable is kept |
| RuntimeTerminal.PresetIdsSorted | internal/runtime/terminal.go:752-758 | `ls presets` lists the preset ids in sorted order |
| RuntimeTerminal.PresetReply | internal/runtime/terminal.go:744-823 | only `ls` and `load` are handled here, and `load` is answered by `LoadReply` |
| RuntimeTerminal.FinalOutput | internal/runtime/terminal.go:355-358 | the reply is the not-found error iff the outcome was still `ok` with no document, or already that error; otherwise it is the outcome's text |
| RuntimeTerminal.HandleCommand | internal/runtime/terminal.go:159-361 | nothing is sent iff the session id is empty; help comes before every other handler; only `load` and `env` commands with two or more words write the session record |
| RuntimeTerminal.EchoOutput | internal/runtime/terminal.go:320-358 | `echo` replies with the trimmed text after it, except that `ok` becomes the not-found error |
| RuntimeTerminal.ViewUsageUnreachable | internal/runtime/terminal.go:214-219 | a command starting `view ` always splits into two or more words, so its usage reply cannot occur |
| RuntimeTerminal.ScriptInfoUsageUnreachable | internal/runtime/terminal.go:342-347 | a command starting `script info ` always splits into three or more words, so its usage reply cannot occur |
| RuntimeCommands.Echo | internal/runtime/commands.go:20-26 | with no argument after the command word the output is empty |
| RuntimeCommands.EchoSplits | internal/runtime/commands.go:22-24 | when no argument holds a space, splitting the output on spaces gives the arguments back |
| RuntimeCommands.EchoCommand | internal/runtime/commands.go:20-26 | echo returns the state unchanged with `Echo` of the arguments |
| RuntimeCommands.KeyOrderLines | internal/runtime/commands.go:55-63 | one `key=value` line per variable, following the keys in sorted order |
| RuntimeCommands.EnvStep | internal/runtime/commands.go:34-71 | the environment changes only for `set` or `clear` |
| RuntimeCommands.EnvSetOneKey | internal/runtime/commands.go:40-50 | `env set` adds or replaces one key, the part of the third word before its first `=`, and keeps every other variable |
| RuntimeCommands.EnvSetValue | internal/runtime/commands.go:44-45 | the value set is everything after that `=` in the words joined by spaces, the following words included |
| RuntimeCommands.EnvOtherwiseUnchanged | internal/runtime/commands.go:35-70 | `list`, usage errors and unknown words leave the environment as it was |
| RuntimeCommands.EnvClearAndList | internal/runtime/commands.go:51-67 | `clear` makes the environment nil, and `list` of a nil or empty one says none is set |
| RuntimeCommands.EnvListByKey | internal/runtime/commands.go:55-64 | `list` prints one line per variable, in increasing key order |
| RuntimeCommands.EnvCommand | internal/runtime/commands.go:34-71 | the new environment and reply are `EnvStep` of the old environment; a `set` on an existing map writes into the map the caller shares; nothing else in the state changes |
| RuntimeCommands.Subjects | internal/runtime/commands.go:113 | one subject per pattern, each with every placeholder substituted by `*` |
| RuntimeCommands.LsPresets | internal/runtime/commands.go:97-103 | `ls presets` lists every registered id exactly once, in increasing order |
| RuntimeCommands.LsPresetPlain | internal/runtime/commands.go:104-114 | a preset whose patterns have no placeholders is shown with its patterns as written |
| RuntimeCommands.DocumentNode | internal/runtime/commands.go:200 | the left-panel node has exactly the given paths and, when there is at least one, is a valid document node |
| RuntimeCommands.ViewLayout | internal/runtime/commands.go:194-200 | after `view` the left panel holds the document node and every other panel is as before; a nil layout or map becomes a map holding only `left` |
| RuntimeCommands.ViewKeepsValid | internal/runtime/commands.go:194-200 | `view` keeps a valid layout valid |
| RuntimeCommands.ViewCommand | internal/runtime/commands.go:190-202 | too few arguments change nothing; otherwise the layout becomes `ViewLayout` of the old one, written in place when the old map exists, and the reply counts the paths |
| RuntimeLayoutManager.RouteOf | internal/runtime/layout_manager.go:43-55 | each of the three layout subjects goes to its own handler, and any other subject is terminated |
| RuntimeLayoutManager.PanelSetResult | internal/runtime/layout_manager.go:60-90 | only an acknowledged command whose write succeeds changes the store, and then only that session's entry, to a layout that validates |
| RuntimeLayoutManager.PanelSetReplacesOnlyPanel | internal/runtime/layout_manager.go:71-79 | an acknowledged `panel.set` puts the decoded node in exactly the named panel and keeps every other panel; a session without a layout gets one with that panel only |
| RuntimeLayoutManager.PanelSetRejectsInvalid | internal/runtime/layout_manager.go:79-85 | a node that fails validation, or a panel name outside the four, is refused with `Nak` and nothing is written |
| RuntimeLayoutManager.EffectiveMode | internal/runtime/layout_manager.go:115-118 | an empty mode becomes merge, and any other mode is kept |
| RuntimeLayoutManager.Combine | internal/runtime/layout_manager.go:120-147 | the mode is refused iff it is unknown or is panel-only without a panel; replace-all yields the built layout itself |
| RuntimeLayoutManager.PresetResult | internal/runtime/layout_manager.go:93-159 | an unknown preset is `Nak` with no change; only an acknowledged command whose write succeeds changes the store, and then only that session's entry, to a nil or valid layout |
| RuntimeLayoutManager.EmptyModeIsMerge | internal/runtime/layout_manager.go:115-118 | an empty mode behaves as merge in every respect |
| RuntimeLayoutManager.UnknownModeNaks | internal/runtime/layout_manager.go:143-146 | an unknown mode is `Nak` whatever the session holds |
| RuntimeLayoutManager.ReplaceAllStoresBuilt | internal/runtime/layout_manager.go:121-122 | replace-all stores the built layout, and nil when the preset has none |
| RuntimeLayoutManager.MergeOverwritesBuiltPanels | internal/runtime/layout_manager.go:123-131 | merge sets every built panel and keeps every other panel of the stored layout |
| RuntimeLayoutManager.PanelOnlySetsOnePanel | internal/runtime/layout_manager.go:132-142 | panel-only sets the named panel to the built panel of that name, nil when the preset lacks it, and keeps the others |
| RuntimeLayoutManager.PanelOnlyNeedsPanel | internal/runtime/layout_manager.go:133-136 | panel-only without a panel name is `Nak` |
| RuntimeLayoutManager.CopyPanels | internal/runtime/layout_manager.go:128-130 | the copy loop leaves the stored panels overridden by every built panel |
| RuntimeLayoutManager.ApplyMode | internal/runtime/layout_manager.go:115-147 | the mode switch computes what `Combine` describes |
| RuntimeLayoutManager.SessionsBucket.ApplyPanelSet | internal/runtime/layout_manager.go:60-90 | the outcome and the new bucket contents are `PanelSetResult` of the old contents |
| RuntimeLayoutManager.SessionsBucket.ApplyPreset | internal/runtime/layout_manager.go:93-159 | the outcome and the new bucket contents are `PresetResult` of the old contents |
| ScriptRunner.OsEnv | internal/runtime/script_runner.go:67-70 | the process environment parses iff every entry holds `=` (an entry without one panics) |
| ScriptRunner.Merged | internal/runtime/script_runner.go:58-90 | the key set is the union of the four layers; a payload key has its payload value, a script key not in the payload its script value, an OS key in neither its OS value, and a repository key only where no other layer sets it |
| ScriptRunner.RepoOnlyWhenUnset | internal/runtime/script_runner.go:72-77 | where both the OS and the repository `.env` set a key and neither override does, the OS value is the one the job sees |
| ScriptRunner.MergeEnv | internal/runtime/script_runner.go:63-90 | the four loops produce `Merged` of the parsed OS environment, and panic (`None`) when it does not parse |
| ScriptRunner.ReadEnviron | internal/runtime/script_runner.go:67-70 | the first loop computes `OsEnv` |
| ScriptRunner.PanicPersists | internal/runtime/script_runner.go:67-70 | once an entry without `=` is met the whole loop panics, whatever follows |
| ScriptRunner.FillAbsent | internal/runtime/script_runner.go:72-77 | the repository loop adds exactly the repository entries whose keys are unset |
| ScriptRunner.Override | internal/runtime/script_runner.go:79-87 | an override loop leaves every key of its source with the source's value and keeps every other entry |
| ScriptRunner.Lines | internal/runtime/script_runner.go:95-97 | one `KEY=VALUE` line per listed key, in order |
| ScriptRunner.MapToEnv | internal/runtime/script_runner.go:93-99 | the result is one `KEY=VALUE` line per entry of the map, each key once, in some order |
| ScriptRunner.ListingHasEveryEntry | internal/runtime/script_runner.go:93-99 | every entry of the map appears as a line |
| ScriptRunner.SplitAtFirstEquals | internal/runtime/script_runner.go:68-69 | splitting a `k=v` line at its first `=` gives back `k` and `v` when `k` holds no `=` |
| ScriptRunner.LinesParse | internal/runtime/script_runner.go:67-99 | parsing listed lines back gives the listed entries |
| ScriptRunner.MapToEnvRoundTrip | internal/runtime/script_runner.go:67-99 | the child parsing the environment it is given gets exactly the map back, when no key holds `=` |
| ScriptRunner.RootIsNearestMarked | internal/runtime/script_runner.go:41-56 | the root found is the nearest ancestor (the start included) holding `.git` or `go.mod`, and none is found iff no ancestor up to `/` holds either |
| ScriptRunner.RepoRoot | internal/runtime/script_runner.go:41-56 | the loop returns the nearest marked ancestor, or the `repo root not found from` error naming the start |
| ScriptRunner.Classify | internal/runtime/script_runner.go:415-438 | a line is output iff it lacks the `##DATA##` prefix; it is rejected iff it has the prefix, an output schema exists and the rest fails it; a data line carries exactly the rest |
| ScriptRunner.EventsOf | internal/runtime/script_runner.go:415-438 | each line publishes at most one event |
| ScriptRunner.PumpOutput | internal/runtime/script_runner.go:405-446 | the loop publishes the events `PumpFrom` describes, stopping after the output line at which the context is done |
| ScriptRunner.PumpAll | internal/runtime/script_runner.go:411-446 | without cancellation the events are those of each line, in line order |
| ScriptRunner.PumpBounded | internal/runtime/script_runner.go:411-446 | no more events than lines, and every data event's payload is some line minus the `##DATA##` prefix |
| RuntimeRenderer.TypedRenderer | internal/runtime/renderer.go:62-81 | a typed renderer serves its pattern with its handler and precomputes no selector |
| RuntimeRenderer.SubRenderer | internal/runtime/renderer.go:84-89 | a sub-renderer writes into the message box of its pattern, `SelectorFor(pattern)-msg` |
| RuntimeRenderer.FallbackMatchesAll | internal/runtime/renderer.go:91-106 | the fallback pattern `>` matches every subject |
| RuntimeRenderer.Build | internal/runtime/renderers.go:147-165 | the renderer a spec builds serves the exact subject with the spec's handler, and has a selector iff it is one of the six script renderers |
| RuntimeRenderer.SpecsWellFormed | internal/runtime/renderers.go:147-165 | the catalogue has eight patterns, all distinct and none holding a vertical bar, so the keys joining pattern and subject with a bar never collide |
| RuntimeRenderer.Row | internal/runtime/renderer.go:45-54 | one subject yields at most one renderer per spec |
| RuntimeRenderer.KeyInjective | internal/runtime/renderer.go:47 | the key joining pattern and subject with a vertical bar determines both when patterns hold no bar |
| RuntimeRenderer.RowKeysHold | internal/runtime/renderer.go:45-53 | the keys one subject marks seen are exactly the keys of the specs it matches |
| RuntimeRenderer.SeenKeysHold | internal/runtime/renderer.go:44-55 | after a list of subjects, a key is seen iff its subject is listed and matches its pattern |
| RuntimeRenderer.ForSubjects | internal/runtime/renderer.go:41-59 | the result is the renderers of each first occurrence of a subject, for each spec it matches in catalogue order, followed by the fallback |
| RuntimeRenderer.Materialise | internal/runtime/renderer.go:42-58 | the two loops over any well-formed catalogue compute the same |
| RuntimeRenderer.AddRow | internal/runtime/renderer.go:45-54 | the inner loop adds the subject's row unless the subject came earlier, and marks its keys seen |
| RuntimeRenderer.SeenBeforeRow | internal/runtime/renderer.go:48-50 | inside the inner loop a matching key is already seen iff its subject came earlier |
| RuntimeRenderer.RepeatAddsNothing | internal/runtime/renderer.go:48-50 | a subject listed again adds no renderer |
| RuntimeRenderer.FirstRows | internal/runtime/renderer.go:44-55 | one row per listed subject |
| RuntimeRenderer.SubjectMajor | internal/runtime/renderer.go:44-55 | the renderers come in subject order, the rows of first occurrences concatenated |
| RuntimeRenderer.RowHasMatches | internal/runtime/renderer.go:45-53 | a row holds the renderer of every spec the subject matches and nothing else |
| RuntimeRenderer.RenderedPairs | internal/runtime/renderer.go:37-55 | every matching (subject, spec) pair has its renderer, and every renderer comes from such a pair |
| RuntimeRenderer.RenderedBound | internal/runtime/renderer.go:44-55 | at most one renderer per listed subject and spec |
| RuntimeRenderer.ParseScriptSubject | internal/runtime/renderers.go:75-84 | the script name is the third dot token and the job id the fifth after a `job` token, both empty when missing |
| RuntimeRenderer.ParseJobSubject | internal/runtime/renderers.go:67-84 | a job subject with dot-free parts parses back to its script and job |
| RuntimeRenderer.ParseInvertsBuilders | internal/runtime/renderers.go:67-84 | parsing inverts each script event subject builder for dot-free names, with no job id for the two creation subjects |
| RuntimeRenderer.StderrOnlyForStderr | internal/runtime/renderers.go:127 | a stderr subject is shown as an error and a stdout subject is not |
| AccountProfile.SliceChars | scripts/rcrainfo_account_profile/main.py:62-67 | every character of a slice is a character of the text it is cut from |
| AccountProfile.CleanDomain | scripts/rcrainfo_account_profile/main.py:62-67 | the cleaned domain holds no `?` and has no whitespace at either end |
| AccountProfile.StripClean | scripts/rcrainfo_account_profile/main.py:66 | trimming `/` and stripping leave a host with clean ends unchanged |
| AccountProfile.SchemeDropped | scripts/rcrainfo_account_profile/main.py:64 | one leading `http://` or `https://` is removed |
| AccountProfile.WwwDropped | scripts/rcrainfo_account_profile/main.py:65 | one leading `www.` is removed, and text without it is kept |
| AccountProfile.CutQuery | scripts/rcrainfo_account_profile/main.py:66 | the text before the first `?` of `host/?query` is `host/` |
| AccountProfile.CleanUrl | scripts/rcrainfo_account_profile/main.py:62-67 | cleaning `http(s)://[www.]host/?query` gives back the host, for a host with clean ends |
| AccountProfile.LastDot | scripts/rcrainfo_account_profile/main.py:83 | the index of the last `.`, or the length when there is none |
| AccountProfile.ShapeIsRegex | scripts/rcrainfo_account_profile/main.py:83 | the shape test on the last `.` agrees with the regular expression, which may capture any `.` |
| AccountProfile.IsValidDomain | scripts/rcrainfo_account_profile/main.py:69-85 | a domain is valid iff, lower-cased and stripped, it contains no blocklist entry and fits `^[a-z0-9][a-z0-9-.]+\.[a-z]{2,}$` (the trailing-digit test never decides) |
| AccountProfile.CmBlocked | scripts/rcrainfo_account_profile/main.py:73 | any text containing `cm` is blocked |
| AccountProfile.ContainingCmRejected | scripts/rcrainfo_account_profile/main.py:72-80 | a domain containing `cm` anywhere is never valid |
| AccountProfile.ExtractEmailDomain | scripts/rcrainfo_account_profile/main.py:89 | text without `@` is only lower-cased, and no result holds an `@` |
| AccountProfile.EmailDomainOfAddress | scripts/rcrainfo_account_profile/main.py:87-89 | for text with an `@`, written `local@piece` followed by nothing or by a second `@` and anything, the result is the piece between the first two `@`s, lower-cased |
| AccountProfile.StrippedNonEmpty | scripts/rcrainfo_account_profile/main.py:105 | the kept variants are exactly the non-empty stripped variants |
| AccountProfile.StripStable | scripts/rcrainfo_account_profile/main.py:105 | stripping twice is stripping once |
| AccountProfile.StripChars | scripts/rcrainfo_account_profile/main.py:105 | stripping adds no character |
| AccountProfile.ReplaceCharChars | scripts/rcrainfo_account_profile/main.py:96-100 | replacing a character adds no character absent from the text and the replacement |
| AccountProfile.SubPairChars | scripts/rcrainfo_account_profile/main.py:101-103 | the `'s\b`-style rewrites add no character absent from the text and the replacement |
| AccountProfile.SubPairAbsent | scripts/rcrainfo_account_profile/main.py:101-103 | a rewrite whose pattern cannot occur changes nothing |
| AccountProfile.VariantsFree | scripts/rcrainfo_account_profile/main.py:96-104 | no variant holds a character, other than an apostrophe, a space or `s`, that the name lacks |
| AccountProfile.NameTermsSpec | scripts/rcrainfo_account_profile/main.py:94-106 | the terms are strictly sorted, each stripped and non-empty, and are exactly the non-empty stripped variants |
| AccountProfile.TermsFree | scripts/rcrainfo_account_profile/main.py:105-106 | no term holds a character that no variant holds |
| AccountProfile.CleanNameTermsSplit | scripts/rcrainfo_account_profile/main.py:106 | for a name without `;`, splitting the joined terms on `;` gives the terms back |
| AccountProfile.SortedSingle | scripts/rcrainfo_account_profile/main.py:106 | a strictly sorted list holding one value is that value alone |
| AccountProfile.SameVariants | scripts/rcrainfo_account_profile/main.py:105-106 | variants that all agree give a single term |
| AccountProfile.PlainNameSingleTerm | scripts/rcrainfo_account_profile/main.py:94-106 | a name with no apostrophe or typographic quote has the stripped name as its only term |
| AccountProfile.Collect | scripts/rcrainfo_account_profile/main.py:118-121 | a domain is collected iff it is the cleaned form of some piece and passes the test |
| AccountProfile.FieldsDomainsSpec | scripts/rcrainfo_account_profile/main.py:111-121 | a domain comes from the columns iff it is a valid cleaned piece of a non-empty listed cell |
| AccountProfile.RowDomainsSpec | scripts/rcrainfo_account_profile/main.py:108-127 | a domain is collected iff it is valid and is a cleaned comma-separated piece of a non-empty cell of one of the six columns, or the e-mail cell's domain |
| AccountProfile.FieldDomainNoQuery | scripts/rcrainfo_account_profile/main.py:119 | a domain taken from the six columns holds no `?` |
| AccountProfile.ProcessDomains | scripts/rcrainfo_account_profile/main.py:108-127 | the loops collect exactly `RowDomains` |
| AccountProfile.AddFields | scripts/rcrainfo_account_profile/main.py:114-121 | the column loop collects the domains of each listed cell |
| AccountProfile.AddPieces | scripts/rcrainfo_account_profile/main.py:118-121 | the piece loop collects the valid cleaned pieces |
| AccountProfile.SeenIdsSnoc | scripts/rcrainfo_account_profile/main.py:148-150 | each row read adds its id to the seen ids, a NaN id of a text column (the one shared `nan` object) included; only a numeric column's fresh NaN, which no lookup finds, adds nothing |
| AccountProfile.FirstPerIdIds | scripts/rcrainfo_account_profile/main.py:148-150 | kept rows carry ids already seen and no id twice, a text column's NaN included; only a numeric column's NaNs may repeat |
| AccountProfile.FirstPrefix | scripts/rcrainfo_account_profile/main.py:148 | whether an earlier row is kept does not depend on later rows |
| AccountProfile.FirstLast | scripts/rcrainfo_account_profile/main.py:148 | the last row is kept iff its id, NaN included, was seen before by no lookup that finds it |
| AccountProfile.FirstPerIdSound | scripts/rcrainfo_account_profile/main.py:140-159 | every output row is the term of a row no earlier row shares its id with, where a text column's NaN is shared and a numeric column's is not |
| AccountProfile.FirstPerIdComplete | scripts/rcrainfo_account_profile/main.py:140-159 | every such row gives an output row; a repeated NaN id of a text column gives none |
| AccountProfile.NaNIdRows | scripts/rcrainfo_account_profile/main.py:148-150 | rows `,Acme`, `,Beta`, `001A000001,Gamma`: a text id column keeps Acme and Gamma, a numeric one all three |
| AccountProfile.SearchTermsSpec | scripts/rcrainfo_account_profile/main.py:129-159 | a KeyError exactly when there is a row and the id or name column is missing; otherwise output rows carry distinct ids (a numeric column's NaNs aside) and are exactly the terms of the rows whose id was not seen before |
| AccountProfile.TermsAt | scripts/rcrainfo_account_profile/main.py:140-159 | the output of the row loop has distinct ids (a numeric column's NaNs aside) and is exactly the terms of the rows whose id was not seen before |
| AccountProfile.ProcessSearchTerms | scripts/rcrainfo_account_profile/main.py:129-159 | the loop, with its set of seen ids, computes `SearchTerms` |
| RcraSearcher.StrippedPieces | scripts/rcrainfo_account_profile/main.py:326 | each kept piece is stripped and non-empty |
| RcraSearcher.LowerAll | scripts/rcrainfo_account_profile/main.py:327 | each domain is lower-cased, one for one |
| RcraSearcher.Tokens | scripts/rcrainfo_account_profile/main.py:305 | as many tokens as pieces |
| RcraSearcher.TokensCons | scripts/rcrainfo_account_profile/main.py:305 | the tokens keep the order of the pieces: the first piece gives the first token |
| RcraSearcher.CreateWordPattern | scripts/rcrainfo_account_profile/main.py:298-306 | the two loops join, with a vertical bar, one token per stripped non-empty `;`-piece of the terms, in order |
| RcraSearcher.PiecesSnoc | scripts/rcrainfo_account_profile/main.py:301-302 | each further term adds its own pieces after those so far |
| RcraSearcher.AppendTokens | scripts/rcrainfo_account_profile/main.py:302-305 | the inner loop appends the tokens of one term's pieces |
| RcraSearcher.Lits | scripts/rcrainfo_account_profile/main.py:305 | an escaped text reads back as one literal per character |
| RcraSearcher.DecodeEscape | scripts/rcrainfo_account_profile/main.py:305 | `re.escape` is undone by the regular-expression reader, whatever follows |
| RcraSearcher.DecodeEdge | scripts/rcrainfo_account_profile/main.py:305 | `\b` reads as a word boundary |
| RcraSearcher.DecodeBar | scripts/rcrainfo_account_profile/main.py:306 | a vertical bar reads as an alternation |
| RcraSearcher.DecodeToken | scripts/rcrainfo_account_profile/main.py:305 | a token reads as the upper-cased piece between two word boundaries |
| RcraSearcher.UpperAll | scripts/rcrainfo_account_profile/main.py:305 | each piece is upper-cased, one for one |
| RcraSearcher.DecodeJoin | scripts/rcrainfo_account_profile/main.py:306 | the joined tokens read as the alternation of the upper-cased pieces |
| RcraSearcher.DecodeJoinStep | scripts/rcrainfo_account_profile/main.py:306 | the first token of the join reads, then a bar, then the rest |
| RcraSearcher.WordPatternReads | scripts/rcrainfo_account_profile/main.py:298-337 | the parenthesised pattern is a group holding exactly one word-bounded alternative per piece, in order, and `()` when there are none |
| RcraSearcher.SqlRoundTrip | scripts/rcrainfo_account_profile/main.py:330-331 | doubling each quote before placing text in a SQL literal is undone by the engine: the text arrives unchanged |
| RcraSearcher.FlagsFor | scripts/rcrainfo_account_profile/main.py:339-362 | without e-mail domains all three e-mail flags are false |
| RcraSearcher.Matches | scripts/rcrainfo_account_profile/main.py:351-368 | every inserted row carries the searched account id and name |
| RcraSearcher.MatchesSpec | scripts/rcrainfo_account_profile/main.py:351-368 | the inserted rows are exactly the facilities with some flag set, each with its own flags |
| RcraSearcher.EmptyNamesMatchAll | scripts/rcrainfo_account_profile/main.py:326-364 | with no name pieces and no domains the empty group matches every facility with a non-NULL handler name |
| RcraSearcher.Count | scripts/rcrainfo_account_profile/main.py:373-382 | a count never exceeds the rows counted |
| RcraSearcher.CountConcat | scripts/rcrainfo_account_profile/main.py:373-382 | counting is additive over appended rows |
| RcraSearcher.CountMono | scripts/rcrainfo_account_profile/main.py:379-382 | a narrower `WHERE` counts no more |
| RcraSearcher.CountAll | scripts/rcrainfo_account_profile/main.py:373-377 | rows that all qualify are all counted |
| RcraSearcher.Without | scripts/rcrainfo_account_profile/main.py:308-319 | after the delete a row stays iff it was there and its account id is not in the batch |
| RcraSearcher.Searcher.constructor | scripts/rcrainfo_account_profile/main.py:170-296 | the searcher holds the view and the table it is given |
| RcraSearcher.Searcher.DeleteOldRecords | scripts/rcrainfo_account_profile/main.py:308-319 | the table loses exactly the rows of the batch's account ids, order kept |
| RcraSearcher.Searcher.Search | scripts/rcrainfo_account_profile/main.py:321-397 | the table and the summary are those of `SearchStep`: NaN name terms or a NaN account name fail before any insert, otherwise the matches are appended and this account's rows counted |
| RcraSearcher.Searcher.Run | scripts/rcrainfo_account_profile/main.py:399-412 | deleting and then searching each row in order gives `RunBatch`'s table and summaries, the first failure stopping the run |
| RcraSearcher.WithoutNone | scripts/rcrainfo_account_profile/main.py:314 | with no ids the delete is skipped and nothing changes |
| RcraSearcher.RunErrPersists | scripts/rcrainfo_account_profile/main.py:395-412 | once a search raises, the later rows change nothing |
| RcraSearcher.WithoutConcat | scripts/rcrainfo_account_profile/main.py:317-318 | the delete distributes over appended rows |
| RcraSearcher.WithoutIdempotent | scripts/rcrainfo_account_profile/main.py:317-318 | deleting the same ids twice is deleting them once |
| RcraSearcher.WithoutAllIn | scripts/rcrainfo_account_profile/main.py:317-318 | rows of listed ids all vanish |
| RcraSearcher.SearchStepAppends | scripts/rcrainfo_account_profile/main.py:367-368 | a search only appends, and only rows of its own account |
| RcraSearcher.BatchIdsPrefix | scripts/rcrainfo_account_profile/main.py:313 | the batch's ids include each row's id |
| RcraSearcher.RunStepsAppends | scripts/rcrainfo_account_profile/main.py:405-412 | a run only appends rows of the batch's accounts to the table left by the delete |
| RcraSearcher.RunKeepsOthers | scripts/rcrainfo_account_profile/main.py:399-412 | rows of accounts outside the batch are kept, in order, whether the run succeeds or fails |
| RcraSearcher.RunIdempotent | scripts/rcrainfo_account_profile/main.py:399-412 | running the same batch again gives the same table and the same summaries |
| RcraSearcher.SearchCounts | scripts/rcrainfo_account_profile/main.py:372-394 | after a search the total is the account's earlier rows plus every inserted row, and each flag count is at most the total |
| RcraSearcher.NaCell | scripts/rcrainfo_account_profile/main.py:292 | a cell reads back as NaN exactly when its text is one of pandas' default NA texts (the empty text, `NA`, `N/A`, `NULL`, `null`, `None`, `nan`, `NaN`, `<NA>` and the others), and as itself otherwise |
| RcraSearcher.NaOption | scripts/rcrainfo_account_profile/main.py:292 | a NaN cell, written as an empty field, reads back as NaN, and a text cell as NaCell reads it |
| RcraSearcher.ReadBackFails | scripts/rcrainfo_account_profile/main.py:326-331 | a term row fails its search, inserting nothing, exactly when its name terms read back as NaN (any default NA text, the empty one included) or its account name is NaN or reads back as NaN |
| ComplianceMetrics.DigitsOrder | scripts/rcrainfo_account_violations/main.py:71-117 | for digit texts of one length, text order is numeric order |
| ComplianceMetrics.DateSplit | scripts/rcrainfo_account_violations/main.py:59-82 | a date's integer value is its year times 10000 plus its month-day part |
| ComplianceMetrics.MonthDayValues | scripts/rcrainfo_account_violations/main.py:42-43 | the bounds `0101` and `1231` are worth 101 and 1231 |
| ComplianceMetrics.BoundValue | scripts/rcrainfo_account_violations/main.py:42-43 | a window bound is an eight-digit text worth its year times 10000 plus its month-day part |
| ComplianceMetrics.DateInWindow | scripts/rcrainfo_account_violations/main.py:36-117 | the window covers exactly the look-back number of years, and a date is in it by text comparison iff its year lies between the first and the last window year |
| ComplianceMetrics.CivilDaysFacts | scripts/rcrainfo_account_violations/main.py:84-86 | the day count puts 1970-01-01 at zero and counts days within a month one by one |
| ComplianceMetrics.DaysToResolveSpec | scripts/rcrainfo_account_violations/main.py:84-86 | both versions are NULL iff a date is NULL; otherwise the written one is the negation of the intended one, which is non-negative iff compliance came on or after the determination |
| ComplianceMetrics.DateParts | scripts/rcrainfo_account_violations/main.py:81-82 | an eight-digit date splits into year, month and day texts |
| ComplianceMetrics.EventAsWritten | scripts/rcrainfo_account_violations/main.py:84-86 | the projection as written fails exactly when the model's does, and otherwise is the model's row with its days to resolve negated |
| ComplianceMetrics.ResolvedInThirtyDays | scripts/rcrainfo_account_violations/main.py:84-86 | any violation determined on 2024-01-01 and back in compliance on 2024-01-31 gets -30 days as written, and 30 as intended |
| ComplianceMetrics.Present | scripts/rcrainfo_account_violations/main.py:55-102 | the kept parts are exactly the non-NULL ones |
| ComplianceMetrics.JoinRow | scripts/rcrainfo_account_violations/main.py:68-117 | a projected row of one report is exactly a joined match kept by the `WHERE` clause |
| ComplianceMetrics.Joined | scripts/rcrainfo_account_violations/main.py:68-117 | the projected rows are exactly the (report, match) pairs joined on a non-NULL handler, with an account id and a date in the window |
| ComplianceMetrics.Oks | scripts/rcrainfo_account_violations/main.py:108 | the successful projections are kept, every one of them |
| ComplianceMetrics.FirstPerKey | scripts/rcrainfo_account_violations/main.py:53-100 | `DISTINCT ON` leaves one row per key, each from the input, and every key of the input |
| ComplianceMetrics.ViewSpec | scripts/rcrainfo_account_violations/main.py:51-118 | a view fails iff an enforcement amount is rejected by the cast; otherwise it holds one row per key, each the projection of a joined pair in the window, and the key of every qualifying pair |
| ComplianceMetrics.Slice | scripts/rcrainfo_account_violations/main.py:185-187 | the slice is exactly the rows of the contact and account, and starts with the first row when that row qualifies |
| ComplianceMetrics.KeysCount | scripts/rcrainfo_account_violations/main.py:211-214 | the distinct keys are no more than the rows, and as many when keys are unique |
| ComplianceMetrics.Hits | scripts/rcrainfo_account_violations/main.py:212 | the hits are exactly the evaluations with `found_violation` Y |
| ComplianceMetrics.Resolved | scripts/rcrainfo_account_violations/main.py:289 | the resolved days are exactly the non-NULL days to resolve of the rows, which the model counts forward (see Findings) |
| ComplianceMetrics.OpenAndResolved | scripts/rcrainfo_account_violations/main.py:219-289 | open and resolved violations add up to the slice |
| ComplianceMetrics.TruncDiv | scripts/rcrainfo_account_violations/main.py:290 | `int` of a quotient truncates toward zero, for either sign of the total |
| ComplianceMetrics.TruncDivNeg | scripts/rcrainfo_account_violations/main.py:290 | truncation toward zero is symmetric in the sign of the total |
| ComplianceMetrics.AvgDays | scripts/rcrainfo_account_violations/main.py:289-290 | the average is None iff nothing is resolved, else the truncated mean of the resolved days |
| ComplianceMetrics.ResolvedNegated | scripts/rcrainfo_account_violations/main.py:289 | negating every row's days negates the resolved days, in order |
| ComplianceMetrics.AvgDaysAsWritten | scripts/rcrainfo_account_violations/main.py:289-290 | with the days as the query writes them, the average is None for the same rows and otherwise the negation of the model's |
| ComplianceMetrics.LastDate | scripts/rcrainfo_account_violations/main.py:222-226 | the last date is None iff the slice is empty, else the largest integer date of the slice |
| ComplianceMetrics.HitRateBounds | scripts/rcrainfo_account_violations/main.py:229-232 | the hit rate lies in 0..100 and is the percentage of evaluations with a violation |
| ComplianceMetrics.Categories | scripts/rcrainfo_account_violations/main.py:237 | one category per row, in order |
| ComplianceMetrics.OfType | scripts/rcrainfo_account_violations/main.py:237-270 | the rows of one category are exactly those with that category |
| ComplianceMetrics.AtYear | scripts/rcrainfo_account_violations/main.py:252-270 | the rows of one year are exactly those whose date has that year |
| ComplianceMetrics.Counts | scripts/rcrainfo_account_violations/main.py:252-270 | one count per listed value |
| ComplianceMetrics.Mode | scripts/rcrainfo_account_violations/main.py:252-270 | the only error it raises is an IndexError |
| ComplianceMetrics.ModeSpec | scripts/rcrainfo_account_violations/main.py:252-270 | `mode().iat[0]` fails iff every value is NULL, otherwise gives a most frequent value, the smallest among equals |
| ComplianceMetrics.TypeRates | scripts/rcrainfo_account_violations/main.py:236-241 | one hit rate per category |
| ComplianceMetrics.ArgMax | scripts/rcrainfo_account_violations/main.py:242 | `idxmax` gives the first index of a largest entry |
| ComplianceMetrics.TopType | scripts/rcrainfo_account_violations/main.py:236-246 | the only error is a ValueError |
| ComplianceMetrics.CategoriesListed | scripts/rcrainfo_account_violations/main.py:237 | every category of a row is in the group table |
| ComplianceMetrics.ListedCategory | scripts/rcrainfo_account_violations/main.py:237 | every category of the group table belongs to a row |
| ComplianceMetrics.TopTypeFails | scripts/rcrainfo_account_violations/main.py:236-242 | the top category fails iff no evaluation has a category |
| ComplianceMetrics.TopTypeBest | scripts/rcrainfo_account_violations/main.py:236-246 | the top category belongs to a row, carries its own hit rate, and no category has a higher one |
| ComplianceMetrics.YearBound | scripts/rcrainfo_account_violations/main.py:60 | a four-digit year is below 10000 |
| ComplianceMetrics.YearsBelow | scripts/rcrainfo_account_violations/main.py:247-264 | the years below a bound, ascending, are exactly the years of the rows below it |
| ComplianceMetrics.Years | scripts/rcrainfo_account_violations/main.py:247-264 | the grouped years are ascending and exactly the years of the rows |
| ComplianceMetrics.YearCounts | scripts/rcrainfo_account_violations/main.py:247-264 | each year's count is the number of distinct keys of that year |
| ComplianceMetrics.TypeCounts | scripts/rcrainfo_account_violations/main.py:255-273 | each (year, category) count is the number of distinct keys of that year and category |
| ComplianceMetrics.YearTypeCounts | scripts/rcrainfo_account_violations/main.py:255-273 | every grouped row has one of the listed years |
| ComplianceMetrics.TrendOf | scripts/rcrainfo_account_violations/main.py:247-275 | the only error is an IndexError |
| ComplianceMetrics.Largest | scripts/rcrainfo_account_violations/main.py:279-287 | with no penalty the result is (None, 0.0); otherwise the largest penalty, with the category of a row that carries it |
| ComplianceMetrics.EvalPart | scripts/rcrainfo_account_violations/main.py:234-261 | no evaluation patterns iff there are no evaluations; a ValueError iff evaluations exist and none has a category; otherwise only an IndexError |
| ComplianceMetrics.ViolPart | scripts/rcrainfo_account_violations/main.py:263-277 | no violation patterns iff there are no violations; the only error is an IndexError |
| ComplianceMetrics.BuildMetricsIdentity | scripts/rcrainfo_account_violations/main.py:183-204 | the empty summary iff all three slices are empty; otherwise the identity comes from the first non-empty slice and matches the requested contact and account |
| ComplianceMetrics.BuildMetricsErrors | scripts/rcrainfo_account_violations/main.py:183-292 | a ValueError iff evaluations exist and none has a category; any other error is an IndexError |
| ComplianceMetrics.BuildMetricsCounts | scripts/rcrainfo_account_violations/main.py:206-232 | hits are among the evaluations, no evaluation patterns without evaluations, open and resolved violations add up, and with unique keys each count is its slice's length |
| ComplianceMetrics.HitRateOf | scripts/rcrainfo_account_violations/main.py:229-232 | a summary's hit rate lies in 0..100, is the percentage of evaluations with a violation, and is 0 without evaluations |
| ComplianceMetrics.HitKeys | scripts/rcrainfo_account_violations/main.py:211-212 | the hit keys are no more than the evaluation keys |
| ComplianceMetrics.UniqueCount | scripts/rcrainfo_account_violations/main.py:211-214 | with unique keys a slice counts one key per row |
| ComplianceMetrics.SliceUnique | scripts/rcrainfo_account_violations/main.py:185-187 | slicing keeps keys unique |
| ComplianceMetrics.Distinct | scripts/rcrainfo_account_violations/main.py:300-306 | the distinct values are exactly the input's, none twice |
| ComplianceMetrics.ContactPairs | scripts/rcrainfo_account_violations/main.py:300 | the pairs are exactly the (contact, account) of the evaluation rows |
| ComplianceMetrics.AccountIds | scripts/rcrainfo_account_violations/main.py:306 | the ids are exactly the accounts of the evaluation rows |
| ComplianceMetrics.ContactRows | scripts/rcrainfo_account_violations/main.py:298-301 | one summary per distinct (contact, account) of the evaluations, in order |
| ComplianceMetrics.AccountRows | scripts/rcrainfo_account_violations/main.py:304-307 | one summary per distinct account of the evaluations, built with no contact |
| ComplianceMetrics.AccountRowsEmpty | scripts/rcrainfo_account_violations/main.py:304-307 | every account row is the empty summary, because no row's contact equals None |
| ComplianceMetrics.ContactRowsNonEmpty | scripts/rcrainfo_account_violations/main.py:298-301 | no contact row is empty: its pair comes from an evaluation of that contact |
| ComplianceTrends.CenteredCovariance | scripts/rcrainfo_account_violations/main.py:157 | the centred cross sum of the least-squares fit is `n` times the scaled covariance `n Sum(xy) - Sum x Sum y` |
| ComplianceTrends.MeanBetween | scripts/rcrainfo_account_violations/main.py:157 | a strictly increasing series of years starts below its mean and ends at or above it |
| ComplianceTrends.CoMonotonePositive | scripts/rcrainfo_account_violations/main.py:157 | two strictly increasing series have a positive scaled covariance |
| ComplianceTrends.SpreadSign | scripts/rcrainfo_account_violations/main.py:154-161 | the scaled variance is never negative, and is zero iff all entries are equal |
| ComplianceTrends.SlopeRising | scripts/rcrainfo_account_violations/main.py:152-158 | strictly rising yearly counts over strictly increasing years have a positive trend |
| ComplianceTrends.SlopeFlat | scripts/rcrainfo_account_violations/main.py:152-158 | flat yearly counts have no trend |
| ComplianceTrends.MaxIndex | scripts/rcrainfo_account_violations/main.py:164 | `idxmax` gives the first index of a largest count |
| ComplianceTrends.SpikeYearSpec | scripts/rcrainfo_account_violations/main.py:160-165 | no spike for equal counts; otherwise a spike iff the first largest count is at least two standard deviations above the mean, and then it is that count's year |
| ComplianceTrends.SpikeAtLast | scripts/rcrainfo_account_violations/main.py:160-165 | counts 1, 1, 1, 1, 20 over 2020..2024 spike in 2024, exactly at the threshold |
| ComplianceTrends.NoSpikeOnRise | scripts/rcrainfo_account_violations/main.py:160-165 | counts 1..5 over 2020..2024 have no spike |
| ComplianceTrends.Recent | scripts/rcrainfo_account_violations/main.py:168 | the recent rows are exactly those from the start year on |
| ComplianceTrends.Early | scripts/rcrainfo_account_violations/main.py:169 | the early rows are exactly those before the start year |
| ComplianceTrends.Kinds | scripts/rcrainfo_account_violations/main.py:174-175 | the grouped categories are exactly those of the rows |
| ComplianceTrends.EarlyTotal | scripts/rcrainfo_account_violations/main.py:173 | the early total is never zero (`or 1`) |
| ComplianceTrends.FiniteKinds | scripts/rcrainfo_account_violations/main.py:176 | the kept categories are exactly those whose share ratio is finite, in sorted order |
| ComplianceTrends.BestShare | scripts/rcrainfo_account_violations/main.py:177 | `idxmax` picks the first category of largest finite share |
| ComplianceTrends.EmergingTypeSpec | scripts/rcrainfo_account_violations/main.py:167-177 | no category iff a partition is empty or no ratio is finite; a returned category occurs in both partitions, has a finite share, and no finite share beats it |
| SalesforceMatch.ReplaceCharPointwise | scripts/rcrainfo_salesforce_acount_match/main.py:70 | replacing one character by another acts character by character and keeps the length |
| SalesforceMatch.SplitOnImage | scripts/rcrainfo_salesforce_acount_match/main.py:70 | splitting the rewritten cell at `,` is splitting the original at every character rewritten to `,` |
| SalesforceMatch.PiecesSplitAtAny | scripts/rcrainfo_salesforce_acount_match/main.py:69-71 | `clean_domains` cuts a cell at each of comma, semicolon, vertical bar and space alike |
| SalesforceMatch.Host | scripts/rcrainfo_salesforce_acount_match/main.py:75-82 | what reaches the registered-domain lookup holds no `/` and no `?` |
| SalesforceMatch.HostOfAddress | scripts/rcrainfo_salesforce_acount_match/main.py:75-82 | for `local@`, an optional `http://` or `https://`, a host without `/`, `?` or `:` and then nothing, a path or a query, what reaches the lookup is exactly the host, e.g. `u@https://h/p` gives `h` |
| SalesforceMatch.HostOfPlainUrl | scripts/rcrainfo_salesforce_acount_match/main.py:77-82 | for a piece without `@` made of an optional scheme, such a host and a path or query, what reaches the lookup is exactly the host |
| SalesforceMatch.CleanDomains | scripts/rcrainfo_salesforce_acount_match/main.py:67-86 | the loop over the pieces computes `CellDomains` |
| SalesforceMatch.DomainsFromPieces | scripts/rcrainfo_salesforce_acount_match/main.py:69-86 | a domain is kept iff some piece reduces to it, in piece order |
| SalesforceMatch.CellDomainsFromPieces | scripts/rcrainfo_salesforce_acount_match/main.py:67-86 | each cleaned domain is the domain of one piece of the cell cut at any separator, and every such domain is kept |
| SalesforceMatch.PieceDomainLower | scripts/rcrainfo_salesforce_acount_match/main.py:83-85 | a piece's domain is non-empty and lower-case |
| SalesforceMatch.BadDomains | scripts/rcrainfo_salesforce_acount_match/main.py:61-65 | the generic domains are the file's lines stripped and lower-cased, and none without the file |
| SalesforceMatch.Keep | scripts/rcrainfo_salesforce_acount_match/main.py:95 | a domain survives the filter iff it is not generic |
| SalesforceMatch.ExtractEmailDomain | scripts/rcrainfo_salesforce_acount_match/main.py:108-109 | an e-mail without `@`, the empty one included, gives the empty domain |
| SalesforceMatch.EmailDomainOfAddress | scripts/rcrainfo_salesforce_acount_match/main.py:107-110 | an e-mail with an `@`, split at its first `@` as `local@domain`, gives `domain` lower-cased and stripped, whatever `domain` holds |
| SalesforceMatch.AddressShape | scripts/rcrainfo_salesforce_acount_match/main.py:110 | in `local@domain` the first `@` follows the local part |
| SalesforceMatch.Explode | scripts/rcrainfo_salesforce_acount_match/main.py:100-102 | one row per domain of the account, in order, or one row with a null domain when there is none |
| SalesforceMatch.DropBlank | scripts/rcrainfo_salesforce_acount_match/main.py:103 | the `domain != ''` filter drops nothing when no domain is empty |
| SalesforceMatch.AccountDomainRows | scripts/rcrainfo_salesforce_acount_match/main.py:43-111 | a KeyError iff a kept or domain column is missing |
| SalesforceMatch.DomainlessAccountKept | scripts/rcrainfo_salesforce_acount_match/main.py:100-104 | an account with no domain left stays as one row with a null domain |
| SalesforceMatch.CountBounds | scripts/rcrainfo_salesforce_acount_match/main.py:115-123 | a group counts no more e-mails than it has rows, and a null-domain group counts none |
| SalesforceMatch.Grouped | scripts/rcrainfo_salesforce_acount_match/main.py:124-128 | one count per (account, domain) key of the rows, null keys kept, and no other key |
| SalesforceMatch.JoinRowMembers | scripts/rcrainfo_salesforce_acount_match/main.py:159-166 | the pairs joined to one account row are exactly the current handlers whose contact e-mail's domain field equals its domain, ignoring case |
| SalesforceMatch.MatchedFacilitiesExactly | scripts/rcrainfo_salesforce_acount_match/main.py:159-168 | a pair is in the replaced match table iff it satisfies the join condition, and null domains never match |
| RcraDownload.DropRun | scripts/download_rcrainfo/main.py:161-163 | what is left starts with a letter or digit, when anything is left |
| RcraDownload.RunsToUnderscore | scripts/download_rcrainfo/main.py:161 | every run outside `[a-z0-9]` becomes one `_`: the result uses only `[a-z0-9_]`, holds no `__`, and starts with `_` iff the input starts outside `[a-z0-9]` |
| RcraDownload.TrimKeepsSnake | scripts/download_rcrainfo/main.py:163 | stripping `_` from both ends keeps the alphabet and the absence of `__` |
| RcraDownload.CollapseNoop | scripts/download_rcrainfo/main.py:165 | collapsing `_` runs changes nothing once there is no `__` |
| RcraDownload.SnakeShape | scripts/download_rcrainfo/main.py:156-166 | the result uses only `[a-z0-9_]`, neither starts nor ends with `_`, holds no `__`, and the collapsing step is a no-op |
| RcraDownload.RunsFixSnake | scripts/download_rcrainfo/main.py:161 | a name already in snake form passes the run rewrite unchanged |
| RcraDownload.LowerFixSnake | scripts/download_rcrainfo/main.py:159 | lower-casing leaves snake text unchanged |
| RcraDownload.SnakeIdempotent | scripts/download_rcrainfo/main.py:156-166 | converting a converted name changes nothing |
| RcraDownload.NoAlnumIsEmpty | scripts/download_rcrainfo/main.py:156-166 | a name with no ASCII letter or digit converts to the empty text |
| RcraDownload.DropAll | scripts/download_rcrainfo/main.py:161-163 | a text without letters or digits is dropped whole |
| RcraDownload.TwoWords | scripts/download_rcrainfo/main.py:156-166 | two alphanumeric words joined by a space become `word_word`, lower-cased |
| RcraDownload.TrimFixesSnake | scripts/download_rcrainfo/main.py:163 | stripping `_` leaves snake text unchanged |
| RcraDownload.LowerConcat | scripts/download_rcrainfo/main.py:159 | lower-casing acts on each part of a concatenation |
| RcraDownload.JoinedIsSnake | scripts/download_rcrainfo/main.py:156-166 | two alphanumeric words joined by `_` are snake text |
| RcraDownload.RunsAtSpace | scripts/download_rcrainfo/main.py:161 | a space between alphanumeric words is rewritten like a `_` |
| RcraDownload.ColumnRenames | scripts/download_rcrainfo/main.py:191-197 | one rename per original column, in order, each the column in double quotes, ` as ` and the column's snake form: it starts with the quoted column, ends with ` as ` and a snake-case name, and has exactly their length |
| RcraDownload.RenameReadsBack | scripts/download_rcrainfo/main.py:195-197 | for a column name without `"`, the quoted name that opens its rename is the column and what follows ` as ` is its snake form |
| RcraDownload.UnionParts | scripts/download_rcrainfo/main.py:201-204 | one `SELECT` per CSV file, each with the same select clause |
| RcraDownload.FolderStatements | scripts/download_rcrainfo/main.py:169-208 | the old table is always dropped; with no CSV file nothing else is sent, otherwise one `CREATE TABLE` over the union of every file |
| RcraDownload.RunEtl | scripts/download_rcrainfo/main.py:222-247 | an unknown key raises the ValueError naming the five keys, before any work; otherwise the folder is `<raw>/<key>/<date>/<subfolder>` |
| RcraDownload.DatasetsShareDatePrefix | scripts/download_rcrainfo/main.py:27-49 | every known dataset's URL pattern starts with the dated production prefix and its subfolder is its key |
| GongAnalysis.SelectIsFilter | scripts/analyze_gong/main.py:188 | a comprehension whose test may raise succeeds iff no element raises, and then keeps exactly the accepted elements in input order |
| GongAnalysis.SelectFirstError | scripts/analyze_gong/main.py:188 | a failed comprehension reports the exception of the first element that raised, every earlier element having passed |
| GongAnalysis.SelectMembers | scripts/analyze_gong/main.py:188 | a value is in a successful comprehension iff it is an input element the test accepted |
| GongAnalysis.ScanFieldsFirst | scripts/analyze_gong/main.py:53-56 | over field dicts, the field loop returns the `value` of the first field named `Name`, `None` when there is none |
| GongAnalysis.CompanyNameIsFirstNameField | scripts/analyze_gong/main.py:48-56 | on a well-formed call the company name is the `value` of the first `Name` field among the `Account` objects of `Salesforce` contexts, in document order, and `None` when there is none |
| GongAnalysis.FilterAccountCalls | scripts/analyze_gong/main.py:58-64 | the account loop returns the calls the comprehension keeps, in order, and fails with the first exception a call raises |
| GongAnalysis.AccountCallsExactly | scripts/analyze_gong/main.py:58-64 | a call is kept iff its company name is a non-empty string containing the account text, ignoring ASCII case |
| GongAnalysis.PutSpec | scripts/analyze_gong/main.py:71 | assigning a dict key changes that key's lookup only, keeps the keys unique, and appends only a new key, leaving an existing key in place |
| GongAnalysis.LookupAbsent | scripts/analyze_gong/main.py:99 | a key the dict lacks looks up as missing |
| GongAnalysis.AssignSpec | scripts/analyze_gong/main.py:66-76 | assigning the entries in turn gives a dict with each key once, holding a key iff some entry has it and mapping it to the info of the last entry with that key |
| GongAnalysis.EntriesSpec | scripts/analyze_gong/main.py:68-75 | every entry comes from a party with that truthy, hashable speaker id and carries its name, title and affiliation with the defaults `Unknown`, `No Title`, `Unknown` |
| GongAnalysis.LastPartySpec | scripts/analyze_gong/main.py:68-75 | the last party with speaker id `k` exists iff some party has the truthy id `k`, and is the one of largest index with it |
| GongAnalysis.EntriesLast | scripts/analyze_gong/main.py:68-75 | for every key, the last entry with it carries the info of the last party with that truthy speaker id, so every such party's id has an entry |
| GongAnalysis.LookupKeys | scripts/analyze_gong/main.py:71 | a key has a lookup in the dict iff it is among the dict's keys |
| GongAnalysis.ParticipantMapSpec | scripts/analyze_gong/main.py:66-76 | a returned speaker map holds each key once, holds `k` iff some party has the truthy speaker id `k`, and maps it to the info of the last such party |
| GongAnalysis.CreateParticipantMap | scripts/analyze_gong/main.py:66-76 | the party loop builds the dict the entries describe, with the same exceptions |
| GongAnalysis.AppendSentences | scripts/analyze_gong/main.py:101-104 | the sentence loop appends exactly the lines `SentenceLines` gives, or stops with the first error a sentence raises |
| GongAnalysis.NonEmptyIndices | scripts/analyze_gong/main.py:101-104 | the positions listed are increasing and are exactly those of the non-empty texts |
| GongAnalysis.SentenceLinesShape | scripts/analyze_gong/main.py:101-104 | when the sentence loop finishes, every sentence had a string text, and the lines are, in order, the speaker, `: ` and the stripped text of each sentence whose stripped text is not empty, one per such sentence; each such text is stripped |
| GongAnalysis.TopicBlockShape | scripts/analyze_gong/main.py:97-104 | a topic's block opens with its one `Topic:` line (`Unnamed Topic` by default) and its sentence lines carry the speaker's name, `Unknown` for an id missing from the map |
| GongAnalysis.TopicBlocksConcat | scripts/analyze_gong/main.py:97-104 | every topic succeeds and the transcript body is the topics' blocks concatenated in order |
| GongAnalysis.FlattenTranscript | scripts/analyze_gong/main.py:78-106 | the header (call id, title, date, duration, one line per participant in map order, `Transcript:`) followed by the topic blocks, joined by newlines; exceptions as the script raises them |
| GongAnalysis.AppendTopics | scripts/analyze_gong/main.py:97-104 | the topic loop yields the topics' blocks in order, stopping at the first topic that raises |
| GongAnalysis.AppendTopic | scripts/analyze_gong/main.py:98-104 | one iteration yields that topic's block |
| GongAnalysis.InWindow | scripts/analyze_gong/main.py:179-184 | for numeric durations and bounds a call is kept iff min ≤ duration ≤ max for the bounds given; a call without a duration counts as 0 |
| GongAnalysis.DurationFilter | scripts/analyze_gong/main.py:177-186 | the duration loop keeps exactly the calls inside the window, in order, failing with the first comparison that raises |
| GongAnalysis.EmptyLineIsData | scripts/analyze_gong/main.py:189-194 | the empty result line is read by the runner as a data line carrying the JSON `{"status": "empty", ...}` |
| GongAnalysis.CallIdsMembers | scripts/analyze_gong/main.py:187 | the id set holds exactly the ids of the kept calls |
| GongAnalysis.MainSelection | scripts/analyze_gong/main.py:137-200 | a missing or falsy `account` raises the ValueError; every other outcome is the empty result or a non-empty match that went on to need a set `GEMINI_API_KEY` |
| GongAnalysis.SelectTranscripts | scripts/analyze_gong/main.py:141-200 | the filtering steps of `main` compute what the reference selection states |
| GongAnalysis.EmptyNeedsNoKey | scripts/analyze_gong/main.py:189-200 | the empty result is reached whatever the API key, since `main` returns before the client is created |
| GongAnalysis.MatchedTranscripts | scripts/analyze_gong/main.py:166-188 | every transcript sent to the model is an input transcript whose `callId` is the id of a call that passed the account filter |
| GongAnalysis.KeptFromAccount | scripts/analyze_gong/main.py:166-186 | every call left after both filters is an input call that passed the account filter |

## Left out

- File, network, NATS and KV I/O: reading and writing files, publishing, acknowledging. Publishing and acknowledging are modelled as their outcome. A KV bucket's existence and `LoadSessionData` parse errors are not modelled.
- The JSON patch library behind `LayoutPatchCommand` (`applyPatch`): it is foreign code. Only the command's validation and subject are modelled.
- Decoding of other message fields: a JSON round trip of the `Raw` fields is not modelled.
- templ components, server-sent-event rendering and the `World` abstraction of the browser side are not modelled. Only which renderers are chosen is.
- `ensureSessionSubscribed`, `sendFreeze`, `getScriptInfo`/`guessScriptLang` and the filesystem details of the readme view are not modelled: they are I/O.
- The `New*Event` constructors that stamp `time.Now` are not modelled: they depend on the clock.
- The `SubjectPatterns` map (internal/messages/builders.go:269-285) is not modelled: it is a lookup table that no modelled operation reads.
- `LoadCommand` and `ScriptCommand` of internal/runtime/commands.go:120-182 are not modelled: they do I/O through the session store and the script directory.
- `TerminalViewDocSubject`, `TerminalViewDocEvent`, `WithInput` and `NewScriptJobDataEvent` are referenced but are not part of this model; their definitions are not among the modelled files.
- `bufio.Scanner` line-length limits, `filepath.Clean` and relative paths are not modelled. Paths are sequences of components.
- Strings are sequences of characters: Go's byte counts are character counts here, and `strings.ToLower` and Python's `lower` and `upper` act on ASCII letters only.
- A missing session entry, or a write to a nil `Panels` map, is the `Fault` outcome, where Go panics.
- RuntimeRenderer.ForSubjects: the renderers are stated as one per matching first-occurrence subject and spec, by the structure of the result. Their count is not stated separately.
- `load` writes a new session record with no environment, so a loaded preset drops the session's `env set` variables. This is modelled as written.
- `mergeEnv`: the code ranks payload over the script `.env`, the script `.env` over the OS environment, and the OS environment over the repository `.env`. A comment and the help text give a different order. The model follows the code.
- ScriptRunner.MapToEnvRoundTrip: the round trip requires that no key contains `=`. With such a key, two entries can print the same line: `a=b`→`c` and `a`→`b=c` both give `a=b=c`. The source does not exclude this.
- The facility blocklist matches by substring, an empty name list gives the pattern `()`, and a `NaN` name-terms cell raises `AttributeError`. All three are modelled as the code does them, not corrected.
- `DISTINCT ON` keeps one row per key; the model keeps the first, and a predicate states what any choice satisfies.
- Account-level rows compare `contact_email == None`, which is never true, so every account row is `{}`. This is modelled literally.
- `spike_year` is modelled without a square root: "z ≥ 2" is stated as a non-negative deviation whose square is at least four times the variance.
- JSON numbers carry their printed text. Go's float64 formatting is not modelled.
- Floating point: `round`, float formatting and the rounding error of means are not modelled. The trend primitives work over exact reals, and conversion to a number is a parameter.
- SQL dates: `STRPTIME` rejection of non-calendar dates and dates that are not 8 digits are not modelled.
- pandas `groupby` order and the order of `STRING_AGG` are not modelled: the source does not fix them.
- The clock (`current_year`) is a parameter.
- ComplianceMetrics.ViewSpec: the views, and so `BuildMetrics` and its average days to resolve, carry the corrected days to resolve of the Findings row, not the script's negated ones. EventAsWritten states that each row as written is the model's row with its days negated, and AvgDaysAsWritten that the script's average is the negation of the model's.
- AccountProfile.SearchTerms: whether pandas read the id column as text or as numbers is the `textIds` parameter. It decides whether the NaN ids are the one shared `nan` object that `in` finds by identity, or fresh objects that equal nothing. Numeric ids are compared as texts, not as numbers.
- MessageBuilders.BuildCommand: `WithArgs` (internal/messages/builders.go:38-41) assigns an `Args` field that `ScriptRunCommand` (internal/messages/schema.go:74-79) does not declare, so no command can hold them; the model returns the arguments beside the command.
- pandas type inference on read-back is not modelled: every cell of the search-term file reads back as text or NaN, where pandas turns an all-digit column into numbers.
- The account row's contact-email column and view columns that no metric reads are not modelled.
- SalesforceMatch.BadDomains: the file is a sequence of lines, each line one domain. That `read_csv` keeps only the first comma-separated field, reads NA texts such as `null` as NaN, skips blank lines and raises on an empty file is not modelled.
- GongAnalysis.ParticipantMap: speaker ids compare as JSON values, so `1`, `1.0` and `true` are three keys, where a Python dict holds them under one.
- GongAnalysis.CompanyName: the three nested loops of `get_company_name`, which return from inside, are recursive functions over the lists rather than a method with loops.
- The public-suffix extraction of `tldextract` is the `registered` parameter. The top-domain output file (scripts/rcrainfo_salesforce_acount_match/main.py:136-142) is not modelled: it is I/O.
- Running the Gemini model and writing the summaries are left out: they are network and file I/O. The analysis script is modelled up to the client's creation.

## Findings

| source | as written | input that shows it | evidently intended | confidence | as-written member | corrected member |
|---|---|---|---|---|---|---|
| scripts/rcrainfo_account_violations/main.py:84-86 | `DATE_DIFF('day', actual_rtc_date, determined_date)` gives the determined date minus the return-to-compliance date, which is negative for every violation resolved after it was found | determined 20240101, resolved 20240131 gives -30 | the days it took to resolve, 30 | not executed | ComplianceMetrics.ResolvedInThirtyDays | ComplianceMetrics.DaysToResolveSpec |
