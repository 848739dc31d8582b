# warepy in Dafny

A model of the deterministic core of `warepy`, a small Python utility package,
with proofs of what its helpers do:

- `join_paths`: strips each path argument and joins the pieces. The package version
  (`warepy/__init__.py`) and the older one (`warepy/core/toolkit.py`) share this model.
- `format_message`, in two versions:
  - the package version unpacks lists, replaces missing values with a phrase,
    checks the number of `{}` fields and encloses each value in backticks;
  - the older version wraps a single value in a list, replaces every falsy
    value, does no count check and adds no enclosing.
- `normalize_db_uri`, `get_or_error` and the loader-name dispatch of `load_yaml`,
  in both versions, each as it runs under its catching decorator.
- The enum helpers `get_enum_values`, `match_enum_containing_value` and the
  member merging of `extend_enum`, and `snakefy`.
- The `catch` decorator of `log` and of the older `logger`. It lets a return through,
  and does not catch classes outside `Exception`, such as KeyboardInterrupt.
  It re-raises an exception with two arguments untouched. Any other exception is
  logged once under the node `module.function` and re-raised "signed", with the
  arguments `(node, first argument)`.
- The singleton registry behind both `Singleton` classes: a map from class to instance,
  filled on a class's first call.
- What `log.configure` and `logger.init_logger` do to the logging library's sink
  table, to the registry and to the old log file.

Python values are a small datatype (`PyValues.Value`): None, booleans, integers,
strings, lists, and other containers (tuple, dict, set) given by size and `repr`.
Truthiness, `str`, `repr` and `==` are written out for it. An exception is its
class name and its `args`. A call's result is an outcome together with the log
records it emitted (`Exceptions.Traced`). Every decorated function is its body
passed through `Catching.CatchIn`, so nested decorated calls compose as they do in
Python. Messages follow Python 3.10, the oldest version the package imports under
(it uses `types.UnionType`).

Where the loops of the source build a value step by step (`join_paths`, both
`format_message`s, `snakefy`, `get_enum_values`, `match_enum_containing_value`,
`extend_enum`), the model is a method with loop invariants. Each such method is
proved equal to a specification function, and the lemmas are about that function.
The registry and the merging dict of `extend_enum` are classes whose methods
update fields in place.

Where the code and the design description of the repository disagree, the model
follows the code:

- The description says the decorator never suppresses an exception. The code
  returns None when `inspect.getmodule` finds no module (`Catching.Catch`).
- The description marks logged exceptions explicitly. The code treats any exception
  with exactly two arguments as already logged (`Catching.TwoArgumentsNeverLogged`).
- The description says each failure is logged exactly once. An exception without
  arguments is logged, then fails at `error.args[0]`, and the resulting IndexError
  is logged again by the next decorator (`Catching.ZeroArgumentsLoggedTwice`).
- The description says `format_message("Value is {}", [None])` gives the text `None`.
  The code encloses it in backticks: `` `None` `` (`MessageFormat.NoneBecomesPhrase`).
- The description says the logging class goes through the singleton registry.
  For the older `logger` it does not (see Findings).

## Model

| member | source | states |
|---|---|---|
| Paths.JoinPaths | warepy/__init__.py:27-39 | the loop accumulating `summary_path` returns exactly what `JoinPathsSpec` gives, or fails where it fails |
| Paths.JoinPathsSpec | warepy/__init__.py:28-38 | the only way `join_paths` fails is the IndexError "string index out of range" |
| Paths.SegmentFails | warepy/__init__.py:30-37 | an argument makes the call fail exactly when it is "", "/" or "./" |
| Paths.SegmentStrips | warepy/__init__.py:30-37 | an argument is lead + segment + trail, with lead "/" exactly when it starts with "/", lead "./" only when it does not, and trail "/" exactly when the argument ends with "/", so the segment is determined |
| Paths.PrefixFailure | warepy/__init__.py:28-38 | once the arguments so far fail, the whole call fails with the same error |
| Paths.JoinPathsAppend | warepy/__init__.py:27-39 | joining `a + b` is joining `a` followed by joining `b`, in argument order |
| Paths.JoinPathsSingle | warepy/__init__.py:28-37 | a single argument joins to "/" and its segment, or fails when it has none |
| Paths.JoinPathsOkIff | warepy/__init__.py:28-38 | the call succeeds exactly when every argument has a segment |
| Paths.JoinPathsFirst | warepy/__init__.py:27-39 | a successful join is the first argument's join followed by the rest's |
| Paths.JoinPathsHead | warepy/__init__.py:27-39 | a successful result starts with "/" and the first argument's segment |
| Paths.JoinPathsAbsolute | warepy/__init__.py:27-39 | a successful call with arguments returns a path starting with "/" |
| Paths.JoinPathsSucceeds | warepy/__init__.py:27-39 | the call succeeds exactly when every argument has a segment, and then the result starts with "/" and the first segment |
| Warepy.JoinPathsLogged | warepy/__init__.py:22-39 | under `log.catch` a path comes back with no log; a failure is logged once and signed with node `warepy.join_paths` |
| Toolkit.JoinPathsLogged | warepy/core/toolkit.py:15-32 | the older version: the same joining, a failure signed with node `warepy.core.toolkit.join_paths` |
| Toolkit.JoinPathsAgree | warepy/core/toolkit.py:20-32 | the two bodies are the same code and share `JoinPathsSpec`; decorated, the versions return the same path, or fail with the same message and differ only in the signing node |
| MessageFormat.FormatMessage | warepy/__init__.py:115-141 | the two loops and the final `format` give exactly `FormatMessageSpec` |
| MessageFormat.FormatMessageSpec | warepy/__init__.py:115-141 | values collected from the arguments, then ValueError on a count mismatch, UnboundLocalError without an enclosing character, else the enclosed values formatted in |
| MessageFormat.AddContribution | warepy/__init__.py:116-128 | one pass of the first loop appends exactly the argument's contribution: a list's values in order, the phrase for an empty list or a missing value |
| MessageFormat.EncloseAll | warepy/__init__.py:135-138 | the second loop wraps every value, in order, in the enclosing character |
| MessageFormat.CollectVarsAppend | warepy/__init__.py:116-128 | values are collected argument by argument, in order |
| MessageFormat.CollectVarsShape | warepy/__init__.py:116-128 | each argument adds its width: a list its length, an empty list or another value one. No falsy non-integer survives, and an `int` instance argument contributes itself |
| MessageFormat.CollectVarsScalars | warepy/__init__.py:125-128 | non-list arguments give one value each, in position: the argument when truthy or an `int` instance (0 and False are kept), else the phrase |
| MessageFormat.CountCheck | warepy/__init__.py:131-141 | ValueError is raised exactly when the count of `{}` differs from the number of values. With an enclosing character every other call returns; without one it raises UnboundLocalError |
| MessageFormat.FormatMessageErrors | warepy/__init__.py:131-140 | every error `format_message` raises is an `Exception` with one argument, so its decorator logs and signs it |
| MessageFormat.FormatMessageFills | warepy/__init__.py:135-141 | the i-th `{}` is replaced by the enclosing character, `str` of the i-th value, and the enclosing character |
| MessageFormat.NoneBecomesPhrase | warepy/__init__.py:120-122 | a list holding None fills its field with the phrase in backticks |
| MessageFormat.OneValue | warepy/__init__.py:115-141 | a one-field text with one contributed value gives that value enclosed |
| MessageFormat.NoValues | warepy/__init__.py:131-141 | a text without fields and no arguments comes back unchanged |
| Warepy.FormatMessageLogged | warepy/__init__.py:95-141 | under `log.catch` a message comes back with no log; a failure keeps its class, is signed by `warepy.format_message` and logged once |
| StrFormat.FormatFrom | warepy/__init__.py:140 | `str.format` with `{}` fields succeeds exactly when there are enough arguments, surplus ones ignored; otherwise IndexError "Replacement index N out of range" |
| StrFormat.FormatInterleave | warepy/__init__.py:140 | fields are filled left to right with the arguments in order |
| StrFormat.FormatFill | warepy/__init__.py:140 | a template of brace-free pieces and fields formats to the pieces with the arguments from index k between them |
| StrFormat.CountPlaceholders | warepy/__init__.py:131 | `text.count("{}")`: non-overlapping occurrences, left to right |
| Warepy.LoaderNamed | warepy/__init__.py:78-85 | exactly the names safe, full, base and unsafe pick a loader, and each loader has one name |
| Warepy.LoadYamlLoader | warepy/__init__.py:66-88 | the four names are accepted with no log; any other name raises a ValueError naming it in backticks (the phrase "None" in backticks for the empty name), signed by `warepy.load_yaml` and logged once |
| Warepy.NormalizeDbUri | warepy/__init__.py:150-165 | a URI containing ":memory:" gives "sqlite:///:memory:". Every result starts with "sqlite:///". Every failure is signed and logged once |
| Warepy.NormalizeDbUriBody | warepy/__init__.py:153-165 | the undecorated body either returns with no log or raises, logged at most once and only if signed |
| Warepy.SchemeSplit | warepy/__init__.py:155 | a URI with exactly one "://" splits into its scheme and the rest |
| PyText.Split | warepy/__init__.py:155 | `str.split(sep)`: the parts joined by the separator give the string back, and no part holds the separator |
| Warepy.SqliteBody | warepy/__init__.py:156-159 | for a sqlite URI the undecorated body returns "sqlite:///" and the joined path, or the join's logged failure |
| Warepy.SqliteSettled | warepy/__init__.py:150-159 | for a sqlite URI the decorator lets the body's result through unchanged |
| Warepy.OtherSchemeBody | warepy/__init__.py:160-165 | any scheme but sqlite makes the body raise its ValueError with no log |
| Warepy.UnpackBody | warepy/__init__.py:155 | the undecorated body raises the unpacking ValueError, with no log, when the URI does not split in two |
| Warepy.NormalizeSqlite | warepy/__init__.py:156-159 | a sqlite URI becomes "sqlite:///" followed by the joined path, so four slashes; a failing join surfaces as the join's own logged IndexError |
| Warepy.NormalizeOtherScheme | warepy/__init__.py:160-165 | postgresql and every other scheme raise a ValueError with the source's message, signed by `warepy.normalize_db_uri` and logged once |
| Warepy.NormalizeUnpack | warepy/__init__.py:155 | a URI without "://" fails with "not enough values to unpack"; one with several fails with "too many values to unpack" |
| Warepy.GetOrError | warepy/__init__.py:170-182 | None and an empty list, dict, tuple or set raise TypeError with the source's messages; anything else is returned unchanged; no log |
| Warepy.EmptyMessage | warepy/__init__.py:179-181 | an empty container shows as the phrase in backticks in the TypeError message |
| Enums.GetEnumValues | warepy/__init__.py:185-190 | the loop returns `EnumValuesSpec`: every class's member values, class after class |
| Enums.EnumValuesAppend | warepy/__init__.py:187-190 | the values of two class lists are the two value lists concatenated |
| Enums.EnumValuesMembers | warepy/__init__.py:188-189 | a value is returned exactly when some member of some class has it |
| Enums.MatchSpec | warepy/__init__.py:253-256 | a class comes back with no log; the only error is a ValueError |
| Enums.MatchFirst | warepy/__init__.py:253-256 | a class is returned exactly when one holds the value, and it is the first such class in argument order |
| Enums.MatchEnumContainingValue | warepy/__init__.py:247-256 | the loop returns exactly `MatchSpec` |
| Enums.MissingOneValue | warepy/__init__.py:256 | with no class holding a value that stands for one field, the ValueError names the value in backticks, or the phrase "None" for None, "" and empty containers, with no log |
| Enums.MissingListValue | warepy/__init__.py:256 | a list of two or more values makes `format_message` itself fail: a ValueError signed by `warepy.format_message`, logged once |
| Enums.AddItemsSpec | warepy/__init__.py:220-226 | merging never removes or reorders and keeps names distinct. It succeeds exactly when all names are distinct, and then appends every item. Otherwise it stops at the first repeated name, keeping the items before it |
| Enums.AddItemsKeeps | warepy/__init__.py:220-226 | names stay distinct, and a run with no repeated name appends every item in order |
| Enums.AddItemsSucceeds | warepy/__init__.py:220-226 | adding succeeds exactly when the joined names and the new names are all distinct |
| Enums.AddItemsStops | warepy/__init__.py:220-226 | a failed run stops at the first item whose name is already joined, keeping the items before it and naming that item in the error |
| Enums.EnumExtender.constructor | warepy/__init__.py:218 | `joined_members` starts empty |
| Enums.EnumExtender.AddItem | warepy/__init__.py:220-226 | a new name is appended; a repeated one raises "<name> key already in joined_members" and changes nothing |
| Enums.EnumExtender.AddAll | warepy/__init__.py:233-237 | the inner loop adds items in order, or stops at the first failure |
| Enums.EnumExtender.Apply | warepy/__init__.py:228-243 | inherited members then applied members are merged into the persisting dict; the result enum has the applied name and every joined member |
| Enums.FirstApply | warepy/__init__.py:230-241 | a fresh decorator succeeds exactly when all names are distinct, and then the enum holds the inherited members followed by the applied ones |
| Enums.RepeatedInherited | warepy/__init__.py:218-237 | once applied, the same decorator fails on its first inherited member, because the dict outlives the call |
| Snake.Snakefy | warepy/__init__.py:259-272 | the loop with `words` and `word` returns `SnakeSpec`; the empty name raises IndexError |
| Snake.SnakeJoin | warepy/__init__.py:261-272 | the joined words are the first character lowered, then each later upper-case character as "_" and its lower case, other characters lowered |
| Snake.SnakefyLower | warepy/__init__.py:263-269 | the result holds no upper-case character |
| Snake.SnakefyUnderscores | warepy/__init__.py:264-272 | the result has the name's underscores plus one per upper-case character after position 0 |
| Snake.SnakefyDropped | warepy/__init__.py:263-272 | deleting underscores from the result gives the lowered name with its underscores deleted |
| Snake.SnakefyProperties | warepy/__init__.py:259-272 | the three facts above together, for every non-empty name |
| Snake.NoUnderscoreName | warepy/__init__.py:259-272 | for a name without underscores, the deleted form is exactly `camel_name.lower()` |
| Toolkit.Items | warepy/core/toolkit.py:82-83 | a list is used as it is; any other value, None included, becomes a one-element list |
| Toolkit.OldFormatMessage | warepy/core/toolkit.py:82-93 | the loop building `vars_for_format` and the `format` give exactly `OldFormatMessageSpec` |
| Toolkit.OldFormatMessageSpec | warepy/core/toolkit.py:82-93 | a single value is wrapped in a list, falsy values become the phrase, and the text is formatted with no count check |
| Toolkit.OldFormatCount | warepy/core/toolkit.py:92-93 | no count check: success exactly when there are at least as many values as fields. Too few values raise IndexError for the first missing field |
| Toolkit.OldFieldlessText | warepy/core/toolkit.py:85-93 | a text without fields is returned unchanged, whatever the values |
| Toolkit.OldOneField | warepy/core/toolkit.py:85-93 | a one-field text shows the first value, or the phrase when that value is falsy |
| Toolkit.ZeroContrast | warepy/core/toolkit.py:88-91 | 0 becomes the phrase in the older version but stays `0`, enclosed, in the package version |
| Toolkit.OldFormatMessageLogged | warepy/core/toolkit.py:76-93 | under `logger.catch` a message comes back with no log; a failure is signed by `warepy.core.toolkit.format_message` |
| Toolkit.LoadYamlLoader | warepy/core/toolkit.py:47-69 | the four names are accepted; any other raises a ValueError naming it without backticks (the phrase "None" for the empty name), logged once |
| Toolkit.NormalizeDbUri | warepy/core/toolkit.py:102-117 | ":memory:" gives "sqlite:///:memory:"; results start with "sqlite:///"; failures are signed and logged once |
| Toolkit.NormalizeDbUriBody | warepy/core/toolkit.py:104-117 | the undecorated body returns with no log, or raises with at most the join's record, signed exactly when logged |
| Toolkit.SqliteBody | warepy/core/toolkit.py:108-111 | for a sqlite URI the body returns "sqlite:///" and the joined path, or the join's logged failure |
| Toolkit.OtherSchemeBody | warepy/core/toolkit.py:112-117 | any scheme but sqlite makes the body raise its ValueError with no log |
| Toolkit.SqliteSettled | warepy/core/toolkit.py:102-111 | for a sqlite URI the decorator lets the body's result through unchanged |
| Toolkit.NormalizeSqlite | warepy/core/toolkit.py:108-111 | a sqlite URI becomes "sqlite:///" followed by the joined path, four slashes; a failing join comes back exactly as the join's signed, once-logged failure |
| Toolkit.NormalizeOtherScheme | warepy/core/toolkit.py:112-117 | postgresql and other schemes raise a ValueError with the messages without backticks, signed by `normalize_db_uri` |
| Toolkit.EmptyListMessage | warepy/core/toolkit.py:130-131 | an empty list gives `format_message` no value for its one field, which raises IndexError, signed and logged there |
| Toolkit.GetOrErrorBody | warepy/core/toolkit.py:127-133 | None and an empty dict, tuple or set raise TypeError; an empty list lets the IndexError of `format_message` through; other values return |
| Toolkit.GetOrError | warepy/core/toolkit.py:120-133 | under `logger.catch` every failure is logged once; an empty list fails with IndexError instead of TypeError |
| Exceptions.RaiseMessage | warepy/__init__.py:87-88 | `raise Cls(message)` raises `Cls` with the message, or lets the message's own error through, keeping the log |
| Exceptions.ExcStr | warepy/log.py:74 | `str(error)`: empty without arguments, the one argument (its repr for KeyError), or the tuple's repr |
| Exceptions.RaisedClasses | warepy/__init__.py:132 | ValueError, IndexError, TypeError, UnboundLocalError and KeyError are caught by `except Exception` |
| PyValues.Truthy | warepy/__init__.py:118-125 | `bool(v)`: false exactly for None, False, 0, "" and empty containers |
| PyValues.Repr | warepy/__init__.py:132 | `repr(v)`, as the f-string prints the list of values |
| PyValues.Str | warepy/__init__.py:138 | `str(v)`: a string itself, anything else its repr |
| PyValues.PyEq | warepy/__init__.py:254 | `==` as `in` uses it: `1 == True`, lists element-wise |
| PyValues.PyEqReflexive | warepy/__init__.py:254 | every value equals itself, through nested lists, so a value is found in a list holding it |
| PyValues.PyEqSymmetric | warepy/__init__.py:254 | `a == b` exactly when `b == a` |
| Catching.CatchIn | warepy/log.py:52-79 | a return, a two-argument error or an error outside `Exception` passes unchanged. Any other error adds one record "Class: str(error)" under the node and comes back as the same class with `(node, first argument)`. With no arguments it comes back as the IndexError "tuple index out of range" |
| Catching.CatchFresh | warepy/log.py:59-75 | an error with one argument from a call that logged nothing comes back as `(node, argument)`, with the one record "Class: argument" |
| Catching.Catch | warepy/core/logger.py:52-68 | with an unknown module an unsigned `Exception` is swallowed and None returned; with a known one it is `CatchIn` |
| Catching.SettledPassesThrough | warepy/log.py:55-57 | a return or a signed error passes any number of decorators unchanged |
| Catching.NestedActsAsInnermost | warepy/core/logger.py:55-65 | nested decorators act as the innermost one alone, unless the error has no arguments |
| Catching.LoggedExactlyOnce | warepy/log.py:55-75 | an unsigned error with arguments under nested decorators is logged exactly once, with the innermost node, and surfaces signed by it |
| Catching.TwoArgumentsNeverLogged | warepy/core/logger.py:55-57 | an error that has two arguments of its own is never logged |
| Catching.ZeroArgumentsLoggedTwice | warepy/log.py:74-75 | an `Exception` of any class without arguments is logged as "Class: " by the inner decorator, and its IndexError again by the outer one, in any modules |
| Catching.BaseExceptionPassesThrough | warepy/log.py:54 | KeyboardInterrupt, SystemExit and the other classes outside `Exception` pass any number of decorators with their own arguments and no record |
| Catching.CatchNested | warepy/log.py:52-79 | a call through nested decorated functions: each decorator handles what the one inside it produced |
| Singletons.Registry.constructor | warepy/singleton.py:19 | the registry starts empty |
| Singletons.Registry.Call | warepy/singleton.py:21-24 | `__call__` updates the registry and returns exactly as `CallSpec` says; the constructor runs only for an unregistered class |
| Singletons.CallSpec | warepy/singleton.py:21-24 | a registered class gets its stored instance; an unregistered one is constructed and stored, or its error raised with the registry unchanged |
| Singletons.Registry.Instance | warepy/singleton.py:29-31 | `instance()` does what calling the class does |
| Singletons.CallKeyed | warepy/core/singleton.py:16-18 | every stored instance stays under its own class |
| Singletons.CallFrame | warepy/core/singleton.py:13-18 | a call returns the entry for its class; it adds at most that entry and never replaces or removes one; it fails only when an unregistered class's constructor raises |
| Singletons.RepeatCall | warepy/core/singleton.py:15-18 | a registered class gets its stored instance back, whatever its arguments, and the constructor is not run |
| Singletons.SecondCallSame | warepy/singleton.py:22-24 | after a successful call, any later call of that class returns the same instance and changes nothing |
| Singletons.FailedConstruction | warepy/core/singleton.py:17 | a constructor that raises leaves the registry unchanged |
| Singletons.DistinctClasses | warepy/singleton.py:19-24 | two classes sharing the registry get two different instances |
| Logging.DeleteOld | warepy/log.py:109-110 | the log file is deleted exactly when deletion is asked for and it exists; nothing else is removed |
| Logging.ConfigureSpec | warepy/log.py:109-118 | the old file is deleted when asked, then the class is called through the registry, adding its sink only on the first construction |
| Logging.ConfigureOnce | warepy/log.py:109-118 | configuring an unregistered class adds its sink and registers it. A registered class adds nothing, though the old file may still be deleted |
| Logging.SinkAddedOnce | warepy/log.py:40-41 | however often `log` is configured, only the first configuration's sink is added |
| Logging.LogSystem.Configure | warepy/log.py:93-118 | `configure` changes the sinks, files and registry exactly as `ConfigureSpec` says |
| Logging.LogSystem.Construct | warepy/log.py:40-41 | constructing through the registry runs `create_logger` only on the first construction |
| Logging.LogSystem.DeleteOldFile | warepy/log.py:109-110 | the file is removed when asked for and present; sinks untouched |
| Logging.LogSystem.InitLoggerAsWritten | warepy/core/logger.py:98-107 | as written, `init_logger` deletes the old file, then raises TypeError; no sink is added and nothing is registered |
| Logging.InitLoggerNeverAddsSink | warepy/core/logger.py:98-107 | as written, no run of `init_logger` calls adds a sink or registers anything |
| Logging.LogSystem.InitLogger | warepy/core/logger.py:82-107 | corrected `init_logger`: it configures through the older registry exactly as `ConfigureSpec` says |

## Left out

- YAML and JSON I/O are not modelled: opening files, PyYAML parsing, `save_yaml`,
  `dump_json_to_environ` and `load_json_from_environ`. Of `load_yaml` only the
  loader-name dispatch is kept.
- `get_next_dict_key` is not modelled. It only wraps dict iteration order.
- `get_union_enum_values` is not modelled. It inspects `union.__args__`, which has
  no counterpart in enums modelled as name/value sequences.
- `warepy/core/development.py` (module reloading), `setup.py` and `noconflict.makecls`
  are not part of this model.
- The logging library itself is not modelled. `create_logger` is one appended sink;
  the library's own file creation, rotation and compression are not modelled.
  `remove_logger`, `get_native_logger` and `head_catch` (which exits the process)
  are left out. `contextualize` appears only as the node on each record.
- Catching.Catch: the module that `inspect.getmodule` finds is a parameter. The
  concrete helpers always have a known module.
- Catching.CatchIn: assumes the error class accepts the two arguments it is re-raised with; a class that does not would fail differently.
- Catching.CatchIn: the new exception's cause chain and traceback are not modelled.
- Catching.CatchIn: an error's class is known only by its name, so the classes outside `Exception` are the built-in ones (BaseException, BaseExceptionGroup, GeneratorExit, KeyboardInterrupt, SystemExit); a user-defined class derived directly from BaseException is treated as an `Exception`.
- Singletons.CallFrame: the constructor is an outcome that cannot touch the registry. In Python `super().__call__` runs `__init__` before the instance is stored, so a constructor that instantiates another singleton adds that entry during the call, and one that calls its own class again registers an instance the outer call then overwrites. Such nested or re-entrant construction is not modelled, and "adds at most that entry and never replaces one" holds only without it.
- Concurrency is not modelled. The registry's check-then-act runs single-threaded.
- MessageFormat.FormatMessage: requires a text whose braces all form `{}` fields; indexed or named fields and `{{` escapes of `str.format` are not modelled.
- Toolkit.OldFormatMessage: requires a text whose braces all form `{}` fields, for the same reason.
- Warepy.FormatMessageLogged: requires a text whose braces all form `{}` fields, for the same reason.
- PyValues.PyEq: tuples, dicts and sets are compared by their stored kind, size and `repr` text, not element by element. So `(1,) == (True,)` is false here though true in Python, and two equal dicts or sets stored in different orders compare unequal. This affects `match_enum_containing_value` for enum values that are such containers.
- PyValues.Repr: only ASCII and C1 control escapes follow Python's `repr`. Other
  containers carry their `repr` text instead of computing it.
- Snake.Snakefy: only ASCII A-Z counts as upper case and is lowered; Python's Unicode `isupper`/`lower` are wider.
- Enums.EnumExtender.Apply: the result enum is its name and its members. `Enum`'s own checks, such as reserved names, and value aliases are not modelled.
- The copying of `__doc__` and the `functools.wraps` metadata are not modelled.
- A subclass that defines its own `instances` attribute would shadow the shared
  registry dict; this is not modelled.
- Error messages are those of Python 3.10. Other versions word unpacking and
  unbound-variable errors differently.

## Findings

| source | as written | input that shows it | evidently intended | confidence | as-written member | corrected member |
|---|---|---|---|---|---|---|
| warepy/core/logger.py:12 | `logger` subclasses the metaclass `Singleton` of `warepy/core/singleton.py` instead of naming it as its metaclass, so `cls(path, ...)` in `init_logger` reaches `type.__new__` with one argument | `logger.init_logger(path="app.log", format="{message}", rotation="1 MB", level="INFO", serialize=False)` raises TypeError and adds no sink | `class logger(metaclass=Singleton)`: the first call adds a sink, later calls return the stored instance | high that no sink is added, medium for the exact TypeError text; not executed | Logging.InitLoggerNeverAddsSink | Logging.LogSystem.InitLogger |
| warepy/core/toolkit.py:130-131 | the empty list is passed as `vars`, which is used as the value list itself, so the one `{}` field gets no value | `get_or_error([])` raises IndexError "Replacement index 0 out of range for positional args tuple" from `format_message` | a TypeError "Requested object is empty mapping", as for `()`, `{}` and `set()`; the package version does this | high; not executed | Toolkit.GetOrError | Warepy.GetOrError |
