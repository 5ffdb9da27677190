# Snakemake executor plugin interface — a verified model

This project models the logic at the core of the Snakemake executor plugin
interface. It covers both generations of the package:

- the current `snakemake_interface_executor_plugins`;
- the older `snakemake_executor_plugin_interface`.

The interface sits between Snakemake and its executor plugins. It does four things, and each becomes a
group of Dafny modules:

1. **Command-line rendering** (`Text`, `Shell`, `PyValues`, `CliUtils`,
   `LegacyUtils`, `ExecutorBase`, `RealExecutor`). Python values become flag
   fragments such as `--cores 4`. Strings are quoted with `shlex.quote`,
   modelled after the single-quote rule of section 2.2.2 of the POSIX Shell
   Command Language. Dict entries go through Python `repr`. The fragments are
   joined with single spaces. Several lemmas read the rendered text back:
   with a POSIX shell word reader, with a Python string-literal decoder, or by
   splitting the target-job encoding. They prove that the value comes back
   unchanged. This part also covers:
   - the resource arguments of `AbstractExecutor`;
   - the spawned command line of `RealExecutor`;
   - the job-submission reporting of `RealExecutor`.
2. **Settings records and the CLI mapping** (`Settings`, `AttributeTypes`,
   `Dataclasses`, `ArgumentArgs`, `SettingsMapping`, `ExecutorPlugin`,
   `LegacyPlugin`). `CommonSettings` and the two enums are modelled with
   their defaults and values. `dataclass_field_to_argument_args` becomes a
   method that builds the keyword arguments step by step and fails where the
   source raises. A settings class is an object whose field table is renamed
   in place to `<prefix>_<field>`. The parsed arguments are read back by
   stripping `<name>_` again. `SettingsRoundTrip` and `CliRoundTrip` prove
   that a value given on the command line reaches the field it was declared
   for.
3. **Plugin registry** (`PluginValidation`, `ExecutorRegistry`,
   `LegacyRegistry`). A plugin module is a map from attribute name to a
   tagged value. The plugin is validated against an ordered schema of
   `AttributeType`s and then stored under its prefix-stripped name. Python
   dicts keep insertion order, so the plugin table is a sequence of
   (name, plugin) pairs. The registry is a class that holds this table.
   The older registry is a singleton, modelled as a class object that hands
   out one instance.
4. **Remote executor bookkeeping** (`Remote`, `LegacyRemote`). This part
   models:
   - the list of active jobs and the `wait` flag;
   - the lazily created temporary directory;
   - the sticky override of the polling interval;
   - the constructor and jobscript checks;
   - the error reporting.

   A poll round is one sequential method. Its call to `check_active_jobs` is
   a function parameter. The effects the executor has on the outside world
   are appended to an `events` log: job registration, logging, cancelling,
   sleeping, temporary-directory removal and cleanup.

A Python value is the datatype `PyValues.Value`. It covers bool, int, str,
path, enum member, None, list and dict, and a dict is a sequence of entries
in insertion order.

The file system, the environment, `sys.executable`, `sys.maxsize` and
`os.path.sep` become parameters. The same goes for the list of installed
modules and for the results of importing them.

## Model

In the source column, paths are relative to the repository root.

| member | source | states |
|---|---|---|
| Shell.QuoteRoundTrip | snakemake_interface_executor_plugins/utils.py:55 | a POSIX shell reads the `shlex.quote` of any string as exactly one word that equals the string |
| Shell.QuoteShape | snakemake_interface_executor_plugins/utils.py:55 | a non-empty string of safe characters is left as is; any other string is wrapped in single quotes |
| Shell.ReadWordOfSafe | snakemake_interface_executor_plugins/utils.py:55 | a shell reads a non-empty run of safe characters back as that same word |
| PyValues.StrRepr | snakemake_interface_executor_plugins/utils.py:38 | `repr` of a str opens and closes with the same quote; that quote is `"` exactly when the text holds `'` and no `"` |
| PyValues.StrReprRoundTrip | snakemake_interface_executor_plugins/utils.py:38 | decoding `repr(s)` as a Python string literal gives back `s`, for every `s` |
| PyValues.StrReprDoubleQuoted | snakemake_interface_executor_plugins/utils.py:38 | text with `'`, no `"` and nothing to escape renders as `"text"` |
| CliUtils.QuoteFromMeaning | snakemake_interface_executor_plugins/utils.py:108 | the scanner used for the quoted-string pattern finds a quote at some index ≥ i with no newline in between, and only then |
| CliUtils.IsQuotedIff | snakemake_interface_executor_plugins/utils.py:108-111 | `is_quoted(s)` holds iff s starts with `'` or `"` and some later character at index ≥ 2 is a quote, with no newline in between (a prefix match, not a full match) |
| CliUtils.FormatCliArg | snakemake_interface_executor_plugins/utils.py:25-32 | the result is "" iff `skip` is set or the value is falsy; `True` gives the flag and one space; any other truthy value gives flag + " " + the rendered value |
| CliUtils.FormatCliArgIgnoresQuote | snakemake_interface_executor_plugins/utils.py:35-43 | the output is the same for `quote=True` and `quote=False` |
| CliUtils.FormatCliValue | snakemake_interface_executor_plugins/utils.py:46-57 | an enum member gives its choice text; a path, and a string that does not look quoted, read back through the shell as one word equal to the value; an already quoted string is kept as is; anything else gives its `repr` |
| CliUtils.FormatCliPosArg | snakemake_interface_executor_plugins/utils.py:35-43 | a scalar renders alone; the items of a list whose renderings hold no blank come back as the separate words of the result; a one-entry dict is that entry's token |
| CliUtils.DictEntryTokenMeaning | snakemake_interface_executor_plugins/utils.py:36-39 | a dict entry renders as the `repr` of `key=value` with the value rendered first, so it decodes back to that text |
| CliUtils.SingleEntryDict | snakemake_interface_executor_plugins/utils.py:36-39 | a one-entry dict under a flag renders as the flag, a space and the entry's token |
| CliUtils.QuotedSlurmExtraKept | snakemake_interface_executor_plugins/utils.py:51-53 | an already quoted string such as `'--gres=gpu:1'` is passed through unchanged |
| CliUtils.QuotedDictValue | snakemake_interface_executor_plugins/utils.py:36-57 | a dict whose value is already single-quoted renders as flag + ` "key=value"`, the `--default-resources "slurm_extra='--gres=gpu:1'"` shape |
| CliUtils.JoinCliArgs | snakemake_interface_executor_plugins/utils.py:60-66 | succeeds iff every truthy fragment is a string, and then joins the truthy fragments in order with single spaces; otherwise fails with the "bug: join_cli_args expects iterable of strings. Given: " message followed by the list as `str` shows it |
| CliUtils.JoinCliArgsWords | snakemake_interface_executor_plugins/utils.py:60-62 | joining blank-free strings and splitting the result on blanks gives back exactly the non-empty strings, in order |
| CliUtils.DecodeWildcardItems | snakemake_interface_executor_plugins/utils.py:82-84 | the `k=v,...` wildcard text splits back into the original pairs when keys have no `=` |
| CliUtils.TargetJobItemRoundTrip | snakemake_interface_executor_plugins/utils.py:77-86 | a `rule:k=v,...` item decodes back to its target spec whenever the separators are unambiguous |
| CliUtils.EncodeTargetJobsCliArgs | snakemake_interface_executor_plugins/utils.py:77-86 | the loop yields one item per target spec, in order, each the encoding of its spec; the older package's encoder (snakemake_executor_plugin_interface/utils.py:76-85) is the same loop |
| LegacyUtils.FormatCliArg | snakemake_executor_plugin_interface/utils.py:45-52 | "" iff skip or falsy; `True` gives flag + " "; anything else gives flag + " " + the older rendering |
| LegacyUtils.FormatCliPosArg | snakemake_executor_plugin_interface/utils.py:55-61 | a scalar renders as its `repr`; a string decodes back to itself, with no shell quoting; a one-entry dict decodes to `key=str(value)`; the items of a list whose reprs hold no blank come back as separate words |
| LegacyUtils.GenerationsAgreeOnScalars | snakemake_executor_plugin_interface/utils.py:45-61 | for bool, int and None values the two generations render the same fragment |
| LegacyUtils.GenerationsDifferOnPlainStrings | snakemake_executor_plugin_interface/utils.py:58-59 | the plain string `a` renders as `'a'` in the older package and as `a` in the current one |
| LegacyUtils.JoinCliArgs | snakemake_executor_plugin_interface/utils.py:64-65 | the truthy fragments are joined in order with single spaces; a truthy non-string fails |
| LegacyUtils.CacheName | snakemake_executor_plugin_interface/utils.py:97 | the cache attribute is `_` followed by the method name |
| LegacyUtils.LazyGetComputesOnce | snakemake_executor_plugin_interface/utils.py:100-108 | once a non-None value is cached, a second access returns it without recomputing |
| LegacyUtils.LazyGetRecomputesNone | snakemake_executor_plugin_interface/utils.py:100-108 | a cached None counts as absent, so the next access recomputes |
| LegacyUtils.Instance.LazyPropertyGet | snakemake_executor_plugin_interface/utils.py:100-108 | the returned value and the new attribute table are those of the lazy-get rule |
| LegacyUtils.Instance.Clean | snakemake_executor_plugin_interface/utils.py:91-93 | the cached attribute is removed; the call succeeds iff it was present |
| ArgumentArgs.ModulePrefixValue | snakemake_interface_executor_plugins/_common.py:11-12 | the module prefix is `snakemake_executor_plugin_` |
| ArgumentArgs.GetArgs | snakemake_interface_executor_plugins/_common.py:56 | `get_args` of a Literal lists its values in order; plain, bool and None types have no arguments |
| ArgumentArgs.DefaultFlag | snakemake_interface_executor_plugins/_common.py:29 | the default flag starts with `--` |
| ArgumentArgs.DefaultFlagNotPositional | snakemake_interface_executor_plugins/_common.py:29-30 | without metadata args the only flag is the default flag, the argument is not positional, and it is required iff there is neither a default nor a default factory |
| ArgumentArgs.DefaultFlagInjective | snakemake_interface_executor_plugins/_common.py:29 | two field names without `-` get the same default flag only if they are equal |
| ArgumentArgs.LiteralTypesCount | snakemake_interface_executor_plugins/_common.py:56-59 | a Literal has more than one value type iff some value's type differs from the first one's |
| ArgumentArgs.InitialKwargs | snakemake_interface_executor_plugins/_common.py:31-39 | the starting kwargs hold the metadata type or else the field type, the help, and `dest` only for named non-positional arguments |
| ArgumentArgs.ApplyRequired | snakemake_interface_executor_plugins/_common.py:94-97 | `required` is set iff default and default_factory are both missing and the argument is not positional; otherwise `default` is set to MISSING |
| ArgumentArgs.ApplyLiteral | snakemake_interface_executor_plugins/_common.py:45-71 | a Literal fails iff metadata choices are given or its values have mixed types; otherwise `type` is the common type and `choices` are the values |
| ArgumentArgs.ApplyNargs | snakemake_interface_executor_plugins/_common.py:76-92 | with `nargs` and no metadata type, `type` becomes the first type argument, and the step fails iff there is none |
| ArgumentArgs.ApplyUnion | snakemake_interface_executor_plugins/_common.py:101-113 | a Union without metadata type fails iff it is not `Optional[X]`; `Optional[X]` gives type X |
| ArgumentArgs.OpeningSteps | snakemake_interface_executor_plugins/_common.py:29-71 | the steps up to the Literal check fail exactly on an empty flag list, Literal with choices, or a mixed Literal, and otherwise build the expected kwargs |
| ArgumentArgs.DataclassFieldToArgumentArgs | snakemake_interface_executor_plugins/_common.py:22-115 | fails iff one of the illegal combinations holds, with the source's exception; otherwise flags, help, dest, choices, metavar, nargs, required/default and type are exactly as the source assigns them |
| ArgumentArgs.IllegalCombinations | snakemake_interface_executor_plugins/_common.py:45-113 | without nargs, conversion fails iff Literal is combined with choices, the Literal mixes types, or a Union other than Optional lacks a metadata type |
| ArgumentArgs.OptionalUnwraps | snakemake_interface_executor_plugins/_common.py:101-107 | `Optional[X]` converts without error and with type X |
| AttributeTypes.AttributeMode.Value | snakemake_interface_executor_plugins/registry/attribute_types.py:6-8 | each mode has value 1 or 2 |
| AttributeTypes.AttributeKind.Value | snakemake_interface_executor_plugins/registry/attribute_types.py:11-13 | each kind has value 1 or 2 |
| AttributeTypes.ModeFromValue | snakemake_interface_executor_plugins/registry/attribute_types.py:6-8 | a mode exists for a value iff it is 1 or 2 |
| AttributeTypes.KindFromValue | snakemake_interface_executor_plugins/registry/attribute_types.py:11-13 | a kind exists for a value iff it is 1 or 2 |
| AttributeTypes.ModeValueRoundTrip | snakemake_interface_executor_plugins/registry/attribute_types.py:6-8 | a mode is identified by its value |
| AttributeTypes.KindValueRoundTrip | snakemake_interface_executor_plugins/registry/attribute_types.py:11-13 | a kind is identified by its value |
| AttributeTypes.Defaults | snakemake_interface_executor_plugins/registry/attribute_types.py:16-20 | an `AttributeType` defaults to REQUIRED (2) and OBJECT (1), so it is neither optional nor a class |
| AttributeTypes.AttributeType.IntoRequired | snakemake_interface_executor_plugins/registry/attribute_types.py:30-31 | keeps cls and kind and is never optional |
| AttributeTypes.IntoRequiredIdempotent | snakemake_interface_executor_plugins/registry/attribute_types.py:22-31 | applying `into_required` twice equals applying it once, and a required type is unchanged |
| Settings.FromKwargs | snakemake_interface_executor_plugins/settings.py:11-41 | construction succeeds iff only known fields are given and both `non_local_exec` and `implies_no_shared_fs` are; the other three flags default to False; a missing-argument error names at least one field |
| Settings.KwargsRoundTrip | snakemake_interface_executor_plugins/settings.py:33-37 | a record rebuilt from all its field values is the same record |
| Settings.RequiredOnly | snakemake_interface_executor_plugins/settings.py:33-37 | giving only the two required flags leaves `dryrun_exec`, `touch_exec` and `use_threads` False, as in the copy of the record in `__init__.py` (lines 31-35) |
| Settings.LocalExecNegates | snakemake_interface_executor_plugins/settings.py:39-41 | `local_exec` is the negation of `non_local_exec`, as in the copy of the record in `__init__.py` (lines 37-39) |
| Settings.ExecMode.Value | snakemake_interface_executor_plugins/settings.py:95-97 | every mode's value lies in 0..2 |
| Settings.ExecModeFromValue | snakemake_interface_executor_plugins/settings.py:95-97 | a mode exists for v iff 0 ≤ v ≤ 2, and its value is v |
| Settings.DeploymentMethod.Value | snakemake_interface_executor_plugins/settings.py:115-117 | every deployment method's value lies in 0..2 |
| Settings.DeploymentMethodFromValue | snakemake_interface_executor_plugins/settings.py:115-117 | a method exists for v iff 0 ≤ v ≤ 2, and its value is v |
| Settings.EnumValuesIdentify | snakemake_interface_executor_plugins/settings.py:89-117 | both enums are identified by their values |
| Dataclasses.Lookup | snakemake_interface_executor_plugins/registry/plugin.py:44-54 | a key is found iff present, and with distinct keys the value is the one stored under it |
| Dataclasses.Put | snakemake_interface_executor_plugins/registry/plugin.py:44-54 | assigning an existing key replaces its value in place; a new key is appended at the end, as a dict does |
| Dataclasses.Del | snakemake_interface_executor_plugins/registry/plugin.py:44-54 | deleting removes the key and keeps every other entry |
| Dataclasses.PutLookup | snakemake_interface_executor_plugins/registry/plugin.py:44-54 | after an assignment the key reads the new value and every other key reads what it read before |
| Dataclasses.PutTwice | snakemake_interface_executor_plugins/registry/plugin.py:44-54 | assigning the same value twice equals assigning it once |
| Dataclasses.FirstUnexpected | snakemake_interface_executor_plugins/registry/plugin.py:102 | no unexpected keyword iff every keyword names a field; a reported one is given and not a field |
| Dataclasses.Missing | snakemake_interface_executor_plugins/registry/plugin.py:102 | the missing names are exactly the fields without default that were not given |
| Dataclasses.Bind | snakemake_interface_executor_plugins/registry/plugin.py:102 | binding yields one value per field in declaration order: the given value, else the default |
| Dataclasses.Init | snakemake_interface_executor_plugins/registry/plugin.py:102 | dataclass `__init__` succeeds iff all keywords are fields and all fields without default are given; fields take the given value or their default |
| Dataclasses.EmptyDataclassInit | snakemake_interface_executor_plugins/__init__.py:42-50 | a record with no fields accepts exactly the empty keyword list and has no settings |
| SettingsMapping.Prefixed | snakemake_interface_executor_plugins/registry/plugin.py:48 | the prefixed name is the prefix, `_`, and the field name |
| SettingsMapping.PrefixedInjective | snakemake_interface_executor_plugins/registry/plugin.py:48 | different fields get different prefixed names |
| SettingsMapping.RenameFields | snakemake_interface_executor_plugins/registry/plugin.py:44-54 | the in-place loop leaves the field table equal to the renaming specification and keeps its keys distinct |
| SettingsMapping.RenameAll | snakemake_interface_executor_plugins/registry/plugin.py:44-54 | renaming every field maps the i-th field to its prefixed name with the same info |
| SettingsMapping.RenamedInOrder | snakemake_interface_executor_plugins/registry/plugin.py:44-54 | when no prefixed name collides with a field, the loop renames every field and keeps their order |
| SettingsMapping.RenameCollisionDropsField | snakemake_interface_executor_plugins/registry/plugin.py:44-54 | with fields `a` and `p_a` under prefix `p`, the loop leaves only `p_p_a` |
| SettingsMapping.Strip | snakemake_interface_executor_plugins/registry/plugin.py:93 | a field name that starts with `<name>_` loses exactly that text |
| SettingsMapping.StripInvertsPrefixed | snakemake_interface_executor_plugins/registry/plugin.py:48-93 | stripping `<name>_` inverts prefixing with the same name |
| SettingsMapping.CollectKwargs | snakemake_interface_executor_plugins/registry/plugin.py:91-99 | the loop collects exactly the specified keyword arguments |
| SettingsMapping.Supplied | snakemake_interface_executor_plugins/registry/plugin.py:91-99 | every supplied keyword names a declared field |
| SettingsMapping.KwargsOfRenamed | snakemake_interface_executor_plugins/registry/plugin.py:91-99 | reading back a renamed table gives each field's parsed value under its own name, when accepted |
| SettingsMapping.SuppliedLookup | snakemake_interface_executor_plugins/registry/plugin.py:15 | a field is supplied iff its parsed value is of an accepted kind (str, int, bool, and lists where allowed), and then with that value |
| SettingsMapping.SettingsRoundTrip | snakemake_interface_executor_plugins/registry/plugin.py:31-102 | after renaming and reading back, construction succeeds and each field holds its command-line value if accepted, else its default |
| PluginValidation.CheckAttr | snakemake_executor_plugin_interface/registry/__init__.py:71-104 | a missing attribute passes iff optional; a class attribute passes iff it is a class with the expected base; an object passes iff it is an instance |
| PluginValidation.FirstError | snakemake_executor_plugin_interface/registry/__init__.py:71-104 | no error iff every schema entry passes; an error is that of the first failing entry |
| PluginValidation.ValidatePlugin | snakemake_executor_plugin_interface/__init__.py:169-198 | the validation loop raises the first schema entry's error, or none |
| PluginValidation.MissingRequiredRejected | snakemake_executor_plugin_interface/registry/__init__.py:78-84 | a missing required attribute always rejects the module |
| PluginValidation.SchemaAccepts | snakemake_interface_executor_plugins/registry/__init__.py:39-59 | a module with the expected `common_settings`, optional `ExecutorSettings` and `Executor` passes |
| PluginValidation.CommonSettingsCheckedFirst | snakemake_executor_plugin_interface/__init__.py:171-182 | without `common_settings` the error is about `common_settings`, whatever else is wrong |
| ExecutorRegistry.ExpectedAttributesShape | snakemake_interface_executor_plugins/registry/__init__.py:39-59 | exactly three distinct attributes: a required `common_settings` object of `CommonSettings`, an optional `ExecutorSettings` class of `ExecutorSettingsBase`, a required `Executor` class of `AbstractExecutor` |
| ExecutorRegistry.LoadPlugin | snakemake_interface_executor_plugins/registry/__init__.py:30-37 | loading succeeds iff `Executor` and `common_settings` exist, copies them, and takes `ExecutorSettings` iff present |
| ExecutorRegistry.ValidatedLoads | snakemake_interface_executor_plugins/registry/__init__.py:30-59 | a module that passes validation always loads |
| ExecutorRegistry.FirstUnknownKeyword | snakemake_interface_executor_plugins/registry/__init__.py:32-37 | a constructor keyword is rejected iff it is not a declared parameter |
| ExecutorRegistry.LoadPluginAsWritten | snakemake_interface_executor_plugins/registry/__init__.py:30-37 | attribute lookups fail first, on `Executor` and then on `common_settings` |
| ExecutorRegistry.LoadPluginRejectsName | snakemake_interface_executor_plugins/registry/__init__.py:33 | for a valid module the call as written fails on the keyword `_name`, while the corrected load succeeds |
| ExecutorRegistry.Register | snakemake_interface_executor_plugins/registry/__init__.py:61-74 | a known name changes nothing; otherwise registration fails iff validation does, with the first validation error, and else stores the loaded plugin under the prefix-stripped name |
| ExecutorRegistry.RegisterIdempotent | snakemake_interface_executor_plugins/registry/__init__.py:74 | registering the same module again changes nothing |
| ExecutorRegistry.RegisterKeepsKeys | snakemake_interface_executor_plugins/registry/__init__.py:74 | a registered name stays registered |
| ExecutorRegistry.RegisterEachWellFormed | snakemake_interface_executor_plugins/registry/__init__.py:73-74 | well-formed modules never stop the registration loop |
| ExecutorRegistry.RegisterEachAppends | snakemake_interface_executor_plugins/registry/__init__.py:73-74 | well-formed modules under new, distinct, unprefixed names are appended to the table in their order, each under its own name, with no error |
| ExecutorRegistry.RegisterBuiltins | snakemake_interface_executor_plugins/registry/__init__.py:73-74 | the three registrations append local, dryrun and touch, in that order, to a table holding none of them |
| ExecutorRegistry.BuiltinNamesUnprefixed | snakemake_interface_executor_plugins/registry/__init__.py:73-74 | the host's executor module names do not start with the plugin module prefix, so they are stored under their full names |
| ExecutorRegistry.RegisterEachHead | snakemake_interface_executor_plugins/registry/__init__.py:73-74 | registering a well-formed module under a new unprefixed name first appends it, then goes on with the rest |
| ExecutorRegistry.CollectInstalled | snakemake_interface_executor_plugins/registry/__init__.py:63 | only an installed prefixed module that cannot be imported fails the import; without prefixed modules the table is unchanged |
| ExecutorRegistry.Collect | snakemake_interface_executor_plugins/registry/__init__.py:61-74 | a failed base collection or a missing host ends collection there; well-formed built-in executors never add an error |
| ExecutorRegistry.NoHostNoBuiltins | snakemake_interface_executor_plugins/registry/__init__.py:65-71 | when the host's executors cannot be imported, collection is the base collection alone |
| ExecutorRegistry.CollectedKeys | snakemake_interface_executor_plugins/registry/__init__.py:61-63 | every stored name was there before or is an installed prefixed module name with the prefix removed |
| ExecutorRegistry.BuiltinsAppendedInOrder | snakemake_interface_executor_plugins/registry/__init__.py:73-74 | local, dryrun and touch are appended in that order after the installed plugins |
| ExecutorRegistry.Registry.RegisterPlugin | snakemake_interface_executor_plugins/registry/__init__.py:74 | the registry table changes exactly as registration specifies and is unchanged on error |
| ExecutorRegistry.Registry.CollectPlugins | snakemake_interface_executor_plugins/registry/__init__.py:61-74 | the registry ends with the table and error of the collection specification |
| ExecutorRegistry.Registry.CollectInstalledPlugins | snakemake_interface_executor_plugins/registry/__init__.py:63 | the base collection step ends as its specification says |
| LegacyRegistry.ExpectedAttributesShape | snakemake_executor_plugin_interface/registry/__init__.py:71-78 | exactly three distinct attributes: a required `common_settings` object, an optional `ExecutorSettings` class, a required `Executor` class of `snakemake.executors.AbstractExecutor` |
| LegacyRegistry.StoredName | snakemake_executor_plugin_interface/__init__.py:160 | the combined package removes every occurrence of the prefix, the split package only a leading one; a name without the prefix is kept |
| LegacyRegistry.StoredNamesAgree | snakemake_executor_plugin_interface/registry/__init__.py:62 | for a name with one leading prefix the two packages store the same key |
| LegacyRegistry.StoredNamesDiffer | snakemake_executor_plugin_interface/registry/__init__.py:62 | for a doubled prefix the two packages store different keys |
| LegacyRegistry.Register | snakemake_executor_plugin_interface/registry/__init__.py:57-69 | fails iff validation fails, with its first error, leaving the table unchanged; otherwise stores the plugin under the stored name |
| LegacyRegistry.ReRegisterEqual | snakemake_executor_plugin_interface/registry/__init__.py:57-69 | registering the same module twice leaves the same table as once |
| LegacyRegistry.CollectFrom | snakemake_executor_plugin_interface/registry/__init__.py:38-55 | only a candidate module that cannot be imported fails the import; without candidates the table is unchanged |
| LegacyRegistry.Collect | snakemake_executor_plugin_interface/registry/__init__.py:38-55 | starting from an empty table, every stored name is the stored name of an installed candidate; no candidate gives an empty table |
| LegacyRegistry.CollectedFromCandidates | snakemake_executor_plugin_interface/registry/__init__.py:48-55 | every collected key was there before or is the stored name of a prefixed module other than the interface package |
| LegacyRegistry.FirstInvalidStops | snakemake_executor_plugin_interface/__init__.py:146-153 | an invalid candidate module stops collection with its error |
| LegacyRegistry.Registry.Init | snakemake_executor_plugin_interface/registry/__init__.py:23-30 | the first `__init__` collects; a later one returns without change |
| LegacyRegistry.Registry.RegisterPlugin | snakemake_executor_plugin_interface/registry/__init__.py:57-69 | the table changes as registration specifies and is unchanged on error |
| LegacyRegistry.Registry.CollectPlugins | snakemake_executor_plugin_interface/registry/__init__.py:38-55 | the table and error are those of the collection specification |
| LegacyRegistry.RegistryClass.New | snakemake_executor_plugin_interface/registry/__init__.py:18-21 | `__new__` returns the existing instance, or a fresh empty one the first time |
| LegacyRegistry.ConstructTwice | snakemake_executor_plugin_interface/__init__.py:121-132 | constructing the registry twice yields the same object, collected once |
| ExecutorPlugin.Construct | snakemake_interface_executor_plugins/registry/plugin.py:102 | the settings instance is built iff the dataclass `__init__` accepts the keywords |
| ExecutorPlugin.EnvVarName | snakemake_interface_executor_plugins/registry/plugin.py:62-63 | the variable name is `SNAKEMAKE_` followed by the upper-cased prefixed name |
| ExecutorPlugin.GroupArguments | snakemake_interface_executor_plugins/registry/plugin.py:56-64 | one argument per field, in order, in the settings group, with an env var iff the field asks for one, named after that field |
| ExecutorPlugin.GroupArgumentsAsWritten | snakemake_interface_executor_plugins/registry/plugin.py:44-64 | as written, the arguments follow the renamed table, and every env var is named after the prefixed name of the last field of the settings class; an empty class adds nothing |
| ExecutorPlugin.EnvVarNameEqual | snakemake_interface_executor_plugins/registry/plugin.py:62-63 | two names read the same variable iff they agree after upper-casing |
| ExecutorPlugin.AsWrittenAgreesWhenUpperEqual | snakemake_interface_executor_plugins/registry/plugin.py:44-64 | without renaming collisions, an argument as written matches the intended one iff its prefixed name and the last field's upper-case alike |
| ExecutorPlugin.EnvVarOfLastField | snakemake_interface_executor_plugins/registry/plugin.py:62-63 | fields `a` and `b` under prefix `p`: as written the first reads `SNAKEMAKE_P_B`, where `SNAKEMAKE_P_A` is intended |
| ExecutorPlugin.AddGroupArguments | snakemake_interface_executor_plugins/registry/plugin.py:58-64 | the parser gains exactly the group's arguments, appended in order |
| ExecutorPlugin.Plugin.Prefix | snakemake_interface_executor_plugins/registry/plugin.py:27-29 | a name without the module prefix is its own prefix |
| ExecutorPlugin.Plugin.Table | snakemake_interface_executor_plugins/registry/plugin.py:66-72 | a settings table exists only when the plugin has a settings class |
| ExecutorPlugin.Plugin.RegisterCliArgs | snakemake_interface_executor_plugins/registry/plugin.py:31-64 | a no-op without settings; otherwise renames the fields in place and adds one grouped argument per field |
| ExecutorPlugin.Plugin.GetExecutorSettings | snakemake_interface_executor_plugins/registry/plugin.py:74-102 | a base instance without settings class; otherwise the dataclass built from the read-back keywords |
| ExecutorPlugin.ReadBackRenamed | snakemake_interface_executor_plugins/registry/plugin.py:91-102 | reading back a renamed table builds each field from its command-line value or its default |
| ExecutorPlugin.CliRoundTrip | snakemake_interface_executor_plugins/registry/plugin.py:31-102 | registering the CLI arguments then reading the settings back builds the settings from the values given on the command line |
| LegacyPlugin.DataclassOptions | snakemake_executor_plugin_interface/registry/plugin.py:56-58 | one ungrouped argument per field, in order |
| LegacyPlugin.SameArgumentsAsCurrent | snakemake_executor_plugin_interface/registry/plugin.py:56-58 | the older arguments are the current ones without group and env var |
| LegacyPlugin.AddDataclassOptions | snakemake_executor_plugin_interface/registry/plugin.py:56-58 | the parser gains exactly those arguments |
| LegacyPlugin.Plugin.Prefix | snakemake_executor_plugin_interface/__init__.py:48-50 | a name without the module prefix is its own prefix |
| LegacyPlugin.Plugin.Table | snakemake_executor_plugin_interface/registry/plugin.py:60-64 | a table exists only when the plugin has settings |
| LegacyPlugin.Plugin.RegisterCliArgs | snakemake_executor_plugin_interface/registry/plugin.py:31-58 | a no-op without settings; otherwise renames in place and adds the dataclass options |
| LegacyPlugin.Plugin.GetExecutorSettings | snakemake_executor_plugin_interface/registry/plugin.py:66-94 | a base instance without settings, an error for a non-dataclass, else the dataclass built from the read-back keywords |
| LegacyPlugin.BaseInstanceIsNoSettings | snakemake_executor_plugin_interface/__init__.py:80-84 | a settings value that is an `ExecutorSettingsBase` instance counts as no settings |
| LegacyPlugin.CombinedDropsLists | snakemake_executor_plugin_interface/__init__.py:36 | a list value reaches the field in the split package but falls back to the default in the combined one |
| ExecutorBase.DigitsExactlyForInts | snakemake_interface_executor_plugins/executors/base.py:62-79 | an int-typed value prints as signed digits iff it is an int and not a bool |
| ExecutorBase.ResourceDeclarationsDict | snakemake_interface_executor_plugins/executors/base.py:62-79 | keeps exactly the int resources not named `_nodes`, `_cores` or scope-excluded |
| ExecutorBase.ResourceItems | snakemake_interface_executor_plugins/executors/base.py:84-85 | one `name=value` item per kept resource |
| ExecutorBase.ResourceDeclarations | snakemake_interface_executor_plugins/executors/base.py:81-86 | "" iff no resource is kept, else starts with `--resources ` |
| ExecutorBase.ResourceTokenReadBack | snakemake_interface_executor_plugins/executors/base.py:81-86 | each kept resource's token splits back into its name and number |
| ExecutorBase.SetResourceItems | snakemake_interface_executor_plugins/executors/base.py:42-51 | empty iff no rule overwrites a resource |
| ExecutorBase.SetResourceItemsAppend | snakemake_interface_executor_plugins/executors/base.py:42-51 | the items of two overwrite lists are the items of each, in order |
| ExecutorBase.SetResourceItemsOfRule | snakemake_interface_executor_plugins/executors/base.py:42-51 | one `rule:name=value` item per resource of a rule |
| ExecutorBase.SetResourcesArgs | snakemake_interface_executor_plugins/executors/base.py:42-51 | "" iff there are no overwrites, else starts with `--set-resources ` |
| ExecutorBase.DefaultResourcesArgs | snakemake_interface_executor_plugins/executors/base.py:53-55 | uses the given resources if truthy, else the workflow default, and is "" iff the chosen value is falsy |
| ExecutorBase.RulePrefix | snakemake_interface_executor_plugins/executors/base.py:133-134 | `local ` iff the job is local, else "" |
| ExecutorBase.CallbackPerJob | snakemake_interface_executor_plugins/executors/base.py:88-119 | running a job list calls the callback once per job, in list order |
| ExecutorBase.AbstractExecutor.Run | snakemake_interface_executor_plugins/executors/base.py:110-119 | `_run(job)` then `callback(job)` are logged |
| ExecutorBase.AbstractExecutor.RunJobs | snakemake_interface_executor_plugins/executors/base.py:88-108 | the loop logs exactly the events of running each job in order |
| RealExecutor.TargetJobsArg | snakemake_interface_executor_plugins/executors/real.py:84-86 | "" iff the job has no target spec |
| RealExecutor.AllowedRulesArg | snakemake_interface_executor_plugins/executors/real.py:90-95 | "" iff the job is updated or has no rules |
| RealExecutor.JobGroupidArg | snakemake_interface_executor_plugins/executors/real.py:97 | present iff the job is a group with a truthy jobid |
| RealExecutor.ForceUseThreadsArg | snakemake_interface_executor_plugins/executors/real.py:100 | `--force-use-threads ` iff the job is not a group |
| RealExecutor.UnneededTempFilesArg | snakemake_interface_executor_plugins/executors/real.py:101-105 | "" iff the list is empty |
| RealExecutor.JobArgFragments | snakemake_interface_executor_plugins/executors/real.py:80-108 | exactly the eight fragments in source order: target jobs, allowed rules, local group id, cores, attempt, force-use-threads, unneeded temp files, resources; `--cores` and `--attempt` are plain `format_cli_arg` calls, so by CliUtils.FormatCliArg they vanish exactly when their values are falsy |
| RealExecutor.JoinStrings | snakemake_interface_executor_plugins/utils.py:60-62 | `join_cli_args` on strings never fails and returns the non-empty ones joined with single spaces |
| RealExecutor.GetJobArgs | snakemake_interface_executor_plugins/executors/real.py:80-108 | `join_cli_args` on the fragments succeeds, with this result |
| RealExecutor.JobArgsStartWithTargets | snakemake_interface_executor_plugins/executors/real.py:80-108 | with a target spec the job args start with `--target-jobs ` |
| RealExecutor.EnvvarDefs | snakemake_interface_executor_plugins/executors/real.py:131 | one `VAR=repr(value)` per variable, in order |
| RealExecutor.EnvvarDeclarations | snakemake_interface_executor_plugins/executors/real.py:127-133 | "" unless declarations are passed and variables exist; then `export ` + the definitions + ` &&` |
| RealExecutor.EnvvarDefReadBack | snakemake_interface_executor_plugins/executors/real.py:131 | each definition splits back into the variable and its value |
| RealExecutor.UnpackedKeyDefs | snakemake_interface_executor_plugins/executors/real.py:131 | unpacking a dict's keys succeeds iff every key has length 2 |
| RealExecutor.EnvvarDeclarationsAsWritten | snakemake_interface_executor_plugins/executors/real.py:127-133 | as written, "" when not passed or empty |
| RealExecutor.EnvvarKeysUnpacked | snakemake_interface_executor_plugins/executors/real.py:131 | as written a key of length other than 2 fails, while the corrected form renders it |
| RealExecutor.TwoLetterKeySplit | snakemake_interface_executor_plugins/executors/real.py:131 | as written the key `AB` renders as `A='B'` |
| RealExecutor.AndAfter | snakemake_interface_executor_plugins/executors/real.py:142-144 | a non-empty part gets ` &&` appended; an empty one stays empty |
| RealExecutor.AndBefore | snakemake_interface_executor_plugins/executors/real.py:145-147 | a non-empty suffix becomes `&& suffix`; an empty one stays empty |
| RealExecutor.ExecHead | snakemake_interface_executor_plugins/executors/real.py:157-166 | prefix, env declarations, precommand, interpreter, `-m snakemake`, `--snakefile`, job args, general args, in that order |
| RealExecutor.ExecTail | snakemake_interface_executor_plugins/executors/real.py:168-175 | `--mode` with the mode's choice, then an empty workflow groupid fragment, then the suffix |
| RealExecutor.FormatJobExec | snakemake_interface_executor_plugins/executors/real.py:141-177 | the command starts with `prefix &&` and ends with `&& suffix` when those are non-empty |
| RealExecutor.JoinNonEmptyFrame | snakemake_interface_executor_plugins/utils.py:60-62 | a non-empty first fragment opens the joined line and a non-empty last one closes it |
| RealExecutor.WorkflowGroupidIgnored | snakemake_interface_executor_plugins/executors/real.py:110-112 | the workflow-level local groupid never changes the command |
| RealExecutor.FormatJobExecAsWritten | snakemake_interface_executor_plugins/executors/real.py:141-177 | as written the call succeeds iff `additional_general_args()` returns the empty list; otherwise TypeError showing the fragment list |
| RealExecutor.TruthyTextsAppend | snakemake_interface_executor_plugins/executors/real.py:157-176 | the truthy fragments of two lists are those of each, in order |
| RealExecutor.DefaultAdditionalArgsAgree | snakemake_interface_executor_plugins/executors/real.py:73-78 | with the default empty list, the command as written equals the corrected one |
| RealExecutor.RegisterFailureMessage | snakemake_interface_executor_plugins/executors/real.py:59-65 | the message starts with the failure text and the error and ends with the persistence path |
| RealExecutor.RegisterFailureMessageUnformatted | snakemake_interface_executor_plugins/executors/real.py:64 | as written the path is never substituted, so the message differs from the intended one |
| RealExecutor.SubmissionEvents | snakemake_interface_executor_plugins/executors/real.py:50-65 | base reporting comes first; the job is registered iff asked; an info message appears iff registration raised |
| Remote.ConstructorCheck | snakemake_interface_executor_plugins/executors/remote.py:61-76 | construction passes iff the jobscript template loads and the jobname contains `{jobid}` |
| Remote.Cores | snakemake_interface_executor_plugins/executors/remote.py:97-104 | `all` iff cores is None or `sys.maxsize`, else the number |
| Remote.PythonExecutable | snakemake_interface_executor_plugins/executors/remote.py:123-129 | `sys.executable` with shared software deployment, else `python` |
| Remote.WaitForFilesArg | snakemake_interface_executor_plugins/executors/remote.py:143-151 | "" iff there are no files, else starts with `--wait-for-files ` |
| Remote.WaitForFilesFileArg | snakemake_interface_executor_plugins/executors/remote.py:143-151 | starts with `--wait-for-files-file ` |
| Remote.WaitForFilesWords | snakemake_interface_executor_plugins/executors/remote.py:143-151 | the argument splits into the flag followed by the files, in order |
| Remote.JobscriptContent | snakemake_interface_executor_plugins/executors/remote.py:232-254 | a formatted template is written as is; a KeyError is re-raised for the default jobscript and wrapped in a WorkflowError naming the custom one otherwise |
| Remote.CustomJobscriptShowsTemplate | snakemake_interface_executor_plugins/executors/remote.py:246 | as written the error shows the template text, which differs from a message that shows the path |
| Remote.JobErrorReport | snakemake_interface_executor_plugins/executors/remote.py:259-267 | the message is exactly the given message (empty when none) followed by the fixed hint; `external_jobid` is added iff known and all other keywords are kept |
| Remote.RoundKeepsJobsDistinct | snakemake_interface_executor_plugins/executors/remote.py:175-191 | a poll round that re-appends only jobs from its snapshot keeps the active list free of duplicates |
| Remote.RemoteExecutor.NextSecondsBetweenStatusChecks | snakemake_interface_executor_plugins/executors/remote.py:277-286 | the override when set, else the configured interval |
| Remote.RemoteExecutor.SetNextSecondsBetweenStatusChecks | snakemake_interface_executor_plugins/executors/remote.py:284-286 | only the override changes |
| Remote.RemoteExecutor.Tmpdir | snakemake_interface_executor_plugins/executors/remote.py:212-216 | the directory is created on first use and reused after |
| Remote.RemoteExecutor.ReportJobSubmission | snakemake_interface_executor_plugins/executors/remote.py:153-158 | reports as the real executor does, then appends the job to the active list |
| Remote.RemoteExecutor.PollRound | snakemake_interface_executor_plugins/executors/remote.py:175-191 | without `wait` nothing changes; otherwise the active list becomes exactly what `check_active_jobs` yields for the snapshot, then the round sleeps |
| Remote.RemoteExecutor.Shutdown | snakemake_interface_executor_plugins/executors/remote.py:201-210 | clears `wait` and removes the tmpdir iff not `immediate_submit` |
| Remote.RemoteExecutor.Cancel | snakemake_interface_executor_plugins/executors/remote.py:106-110 | cancels a copy of the active list taken first, then shuts down |
| Remote.RemoteExecutor.GetJobscript | snakemake_interface_executor_plugins/executors/remote.py:221-230 | a WorkflowError iff the name holds the path separator, else tmpdir/name |
| Remote.RemoteExecutor.GetJobArgs | snakemake_interface_executor_plugins/executors/remote.py:131-151 | wait-for-files only with shared input/output; tmpdir first, then the job's files; the file variant beyond 20 entries |
| Remote.RemoteExecutor.WriteJobscript | snakemake_interface_executor_plugins/executors/remote.py:232-254 | writes the content or reports its error as routed above |
| Remote.NewRemoteExecutor | snakemake_interface_executor_plugins/executors/remote.py:41-95 | fails iff the constructor check fails; otherwise a fresh executor with no active jobs and `wait` set |
| Remote.OverrideIsSticky | snakemake_interface_executor_plugins/executors/remote.py:277-286 | once set, the override survives submissions and poll rounds |
| LegacyRemote.DefaultJobnameAccepted | snakemake_executor_plugin_interface/executors/remote.py:47 | the default jobname passes the constructor check |
| LegacyRemote.Cores | snakemake_executor_plugin_interface/executors/remote.py:96 | the given cores if truthy, else `all` |
| LegacyRemote.CoresGenerations | snakemake_executor_plugin_interface/executors/remote.py:96 | both generations agree on positive counts and None and differ on 0 |
| LegacyRemote.Gated | snakemake_executor_plugin_interface/executors/remote.py:122-132 | "" when disabled, else the inherited value |
| LegacyRemote.EnvDefs | snakemake_executor_plugin_interface/executors/remote.py:139-145 | one `VAR=repr(value)` per variable, or a KeyError for the first one missing from the environment |
| LegacyRemote.EnvvarDeclarations | snakemake_executor_plugin_interface/executors/remote.py:139-145 | "" when disabled; otherwise succeeds iff every variable is set |
| LegacyRemote.EnvvarGenerations | snakemake_executor_plugin_interface/executors/remote.py:139-145 | the older declarations are the current ones without `export` and `&&` |
| LegacyRemote.ErrorKind | snakemake_executor_plugin_interface/executors/remote.py:268-281 | `group job ...` iff the job is a group, else `rule ...` |
| LegacyRemote.ClusterJobErrorMessage | snakemake_executor_plugin_interface/executors/remote.py:268-281 | the whole message: error kind, cluster jobid, external id, jobscript, then the hint |
| LegacyRemote.JobErrorEvents | snakemake_executor_plugin_interface/executors/remote.py:252-266 | the base handler runs first; cleanup of metadata and outputs happens iff `keepincomplete` is false |
| LegacyRemote.LegacyRemoteExecutor.Tmpdir | snakemake_executor_plugin_interface/executors/remote.py:203-207 | created on first use and reused after |
| LegacyRemote.LegacyRemoteExecutor.Shutdown | snakemake_executor_plugin_interface/executors/remote.py:183-192 | clears `wait` and removes the tmpdir iff not `immediate_submit` |
| LegacyRemote.LegacyRemoteExecutor.Cancel | snakemake_executor_plugin_interface/executors/remote.py:194-195 | exactly shutdown: no jobs are cancelled |
| LegacyRemote.LegacyRemoteExecutor.Run | snakemake_executor_plugin_interface/executors/remote.py:197-201 | leaves the executor's state unchanged |
| LegacyRemote.LegacyRemoteExecutor.HandleJobError | snakemake_executor_plugin_interface/executors/remote.py:252-266 | logs exactly the job-error events |
| LegacyRemote.LegacyRemoteExecutor.PrintClusterJobError | snakemake_executor_plugin_interface/executors/remote.py:268-281 | logs exactly the cluster error message |
| LegacyRemote.LegacyRemoteExecutor.GetJobscript | snakemake_executor_plugin_interface/executors/remote.py:212-221 | a WorkflowError iff the name holds the separator, else tmpdir/name |
| LegacyRemote.LegacyRemoteExecutor.GetJobArgs | snakemake_executor_plugin_interface/executors/remote.py:150-170 | wait-for-files only with a shared FS, the file variant beyond 20 entries |
| LegacyRemote.LegacyRemoteExecutor.WriteJobscript | snakemake_executor_plugin_interface/executors/remote.py:223-245 | the default jobscript re-raises a KeyError; a custom one wraps it naming the path |
| LegacyRemote.NewLegacyRemoteExecutor | snakemake_executor_plugin_interface/executors/remote.py:89-96 | fails iff the constructor check fails; otherwise a fresh executor with cores as above |

## Left out

- Threads, asyncio and locks are left out: the status-checking thread, `async_lock`, the `Throttler`, the `while True` polling loop and the initial sleep. One poll round is modelled as one atomic method, and an exception forwarded to `executor_error_callback` is not modelled.
- The conversion of a float to `Fraction(...).limit_denominator()` in the remote constructor is left out, because it is floating point. No float values are modelled at all; `float` in the accepted argument kinds is dropped.
- Module discovery and import (`pkgutil.iter_modules`, `importlib.import_module`, importing `snakemake.executors`) become parameters: the list of installed module names and a map of the modules that import successfully.
- File-system and environment access become parameters or logged events. This covers jobscript reading and writing, `chmod`, `mkdtemp`, `rmtree`, the wait-for-files file, `os.environ`, `sys.executable`, `sys.maxsize` and `os.path.sep`. `os.path.join` is modelled as concatenation with the separator, and `os.path.abspath` is not modelled.
- `argparse` and `argparse_dataclass` are not modelled. Argument registration is a recorded list of arguments (group, field, env var), and `_handle_bool_type` is only flagged on the result.
- `repr` and `shlex.quote` are modelled for printable ASCII. Non-ASCII and non-printable characters are outside the model.
- The `PluginRegistryBase` class and the attribute-type enums of `snakemake_interface_common` are not part of this model's sources. The current registry's `register_plugin` and base `collect_plugins` are reconstructed from their use in `registry/__init__.py` and from the older package's registry.
- ExecutorRegistry.LoadPlugin and everything that registers through it (ExecutorRegistry.Register, ExecutorRegistry.RegisterEach, ExecutorRegistry.CollectInstalled, ExecutorRegistry.Collect and the `Registry` methods) load with the keyword `name`, the correction of the Findings row on registry/__init__.py:33. As written, `load_plugin` raises TypeError on the first valid plugin (ExecutorRegistry.LoadPluginAsWritten).
- ExecutorRegistry.Registry.RegisterPlugin: stores the plugin loaded by the corrected ExecutorRegistry.LoadPlugin; as written the call raises TypeError for every valid module.
- ExecutorRegistry.Registry.CollectPlugins: registers through the corrected ExecutorRegistry.LoadPlugin; as written collection stops with TypeError at the first valid installed plugin.
- ExecutorRegistry.Registry.CollectInstalledPlugins: registers through the corrected ExecutorRegistry.LoadPlugin, so it does not show the TypeError that the code as written raises at the first valid plugin.
- ExecutorPlugin.AddGroupArguments: names each env var after its own field, the corrected behaviour; the group as written is ExecutorPlugin.GroupArgumentsAsWritten.
- ExecutorPlugin.Plugin.RegisterCliArgs: adds the corrected group (ExecutorPlugin.GroupArguments); as written every env var is named after the last field (ExecutorPlugin.GroupArgumentsAsWritten).
- Remote.RemoteExecutor.WriteJobscript: the custom-jobscript error names the jobscript's path, the corrected message; as written it shows the template text (Remote.CustomJobscriptShowsTemplate).
- RealExecutor.EnvvarDeclarations: whether declarations are passed is a parameter. The `CommonSettings` of settings.py:11-41 has no `pass_envvar_declarations_to_cmd` field, so executors/real.py:130 as written would raise AttributeError unless the host's settings object provides it.
- RealExecutor.SubmissionEvents: the inherited `report_job_submission` is recorded as the `InheritedReport` event. base.py defines no `report_job_submission`, no `SubmittedJobInfo` and no `self.logger`, and executors/real.py:30-33 passes the logger into the `dag` parameter of `AbstractExecutor.__init__`, so the code as written depends on a base class other than this one.
- Remote.RemoteExecutor.ReportJobSubmission: inherits the same `InheritedReport` event and the same mismatch with base.py as RealExecutor.SubmissionEvents.
- ArgumentArgs.InitialKwargs: a metadata entry that maps to None is treated like an absent one. As written, `metadata["type"] = None` passes `type=None` (_common.py:32) where the model takes the annotation.
- ArgumentArgs.DataclassFieldToArgumentArgs: treats metadata entries set to None like absent ones. As written, `metadata["args"] = None` raises TypeError at `args[0]` (_common.py:29-30), and `metadata["type"] = None` passes `type=None`; for `choices`, `metavar` and `nargs` the source itself tests `is not None`, so there the two agree.
- CliUtils.JoinCliArgs: the error message shows the list as Python's `str` prints it. The callers that pass a generator (`format_cli_pos_arg`) hand over only strings, so their `<generator object ...>` text never appears.
- ExecutorRegistry.Register: the check for an already registered plugin looks up the module name as given, as the base class is assumed to do; the base class itself is not part of this model.
- `SettingsEnumBase.item_to_choice` is kept abstract: an enum member carries its choice text as data.
- The `url_can_parse` helper is not modelled: it only calls `urllib.parse`.
- `workflow_property_to_arg`, `get_resource_scopes_args` and the other workflow-facing argument helpers of the base executor are not modelled. Neither are the `get_exec_mode` constants of concrete executors. These helpers only forward workflow settings.
- The base `print_job_error` and `handle_job_error` logging is recorded as an inherited event, not as the logged text.
- The older package's `ExecMode` is three integer constants with no behaviour of its own, so no contract is stated about it.
- The `not_iterable` helper is the predicate `PyValues.NotIterable`. Its only role is to choose between the scalar and list renderings, and no separate lemma is stated about it.
- The registry-level `register_cli_args` of the older combined registry is not modelled. It only loops over the plugins' own `register_cli_args`.
- Remote.Cores: `sys.maxsize` is an integer parameter, not a fixed 64-bit constant.
- LegacyRemote.Gated: the base-class value that is passed through is a parameter, so only the gating is stated.
- The interface-only files are treated as opaque collaborators: jobs, workflow, dag, persistence, logging, scheduler, cli and resources. Their values are parameters. `exceptions.py` is folded into the error datatypes.

## Findings

| source | as written | input that shows it | evidently intended | confidence | as-written member | corrected member |
|---|---|---|---|---|---|---|
| snakemake_interface_executor_plugins/registry/plugin.py:62-63 | every env var is named after `prefixed_name`, which after the renaming loop is the last field's | fields `a` and `b`, both with `env_var`, prefix `p`: both arguments get `SNAKEMAKE_P_B` | each field's own `SNAKEMAKE_<PREFIX>_<FIELD>` | high, not executed | ExecutorPlugin.EnvVarOfLastField | ExecutorPlugin.GroupArguments |
| snakemake_interface_executor_plugins/executors/real.py:131 | `for var, value in envars` iterates the keys of the dict returned by `envvars()` and unpacks each key | envvars `{"AB": "x"}` renders `export A='B' &&`; a key of any other length raises ValueError | iterate `envars.items()` | high, not executed | RealExecutor.EnvvarKeysUnpacked | RealExecutor.EnvvarDeclarations |
| snakemake_interface_executor_plugins/executors/real.py:167 | the list from `additional_general_args()` is placed inside the list given to `join_cli_args` | any override returning `["--foo"]` makes the join raise TypeError | splice or join the additional arguments | medium, not executed | RealExecutor.FormatJobExecAsWritten | RealExecutor.FormatJobExec |
| snakemake_interface_executor_plugins/executors/real.py:64 | the last message line is not an f-string, so `{self.workflow.persistence.path}` is printed literally | any IOError from `job.register` | the persistence path interpolated | high, not executed | RealExecutor.RegisterFailureMessageUnformatted | RealExecutor.RegisterFailureMessage |
| snakemake_interface_executor_plugins/executors/remote.py:246 | the custom-jobscript error shows `self.jobscript`, the template text | a custom jobscript whose template uses an unknown key | the path of the custom jobscript, as the older package shows | medium, not executed | Remote.CustomJobscriptShowsTemplate | Remote.JobscriptContent |
| snakemake_interface_executor_plugins/registry/__init__.py:33 | `Plugin(_name=...)`, but the Plugin dataclass field is `name` (registry/plugin.py:20), so the call raises TypeError | any valid plugin module | `Plugin(name=...)` | low (could be version skew with the dataclass), not executed | ExecutorRegistry.LoadPluginRejectsName | ExecutorRegistry.LoadPlugin |
