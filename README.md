# ticli option groups and validation diagnostics, modelled in Dafny

ticli is a small layer over Python Fire for writing command-line tools as
Python classes. This project models its own logic, which has two parts:

- **The `group` class decorator** (`ticli/option.py`). It takes a user class
  `C` and builds a subclass `D`:
  - a hook (`_options`, `_init` or `_invoke`) that `C` lacks is replaced by a
    no-op one;
  - the option parameters of `_options` are spliced into the parameter lists
    of `_init` and `_invoke`, giving the signatures of `D.__init__` and
    `D.__call__`;
  - when `D` is constructed or called, the keyword arguments named after an
    option go to `_options` and the rest go to `_init` or `_invoke`;
  - `D.__doc__` joins the docstrings of the class and its three hooks.
- **`print_validation_error`** (`ticli/validation.py`). It turns the errors of a
  validation failure into diagnostic lines:
  - the location path becomes an argument name;
  - it looks up the value the user supplied for that argument;
  - it prints each distinct line once.

The files:

- `wrappers.dfy`: `Option` and `Result`.
- `signature.dfy` (module `Signature`):
  - a parameter list as `inspect` describes it: name, kind and whether the
    parameter has a default;
  - the checks `inspect.Signature` makes before accepting a list (`WellFormed`);
  - the split loop of the two signature constructors and the splice it
    computes.
- `option_group.dfy` (module `OptionGroup`):
  - the decorator as a method from a class record to the attributes of `D`,
    or to the exception decoration raises;
  - the keyword routing loop;
  - a class `Instance` for an object of `D`. Its constructor is `__init__` and
    its method `Call` is `__call__`. It records, in order, the calls these two
    make on the user's hooks.
- `validation.dfy` (module `Validation`): each loop of `print_validation_error`
  as a method proved against a specification function.
  `PrintValidationError` returns the lines it prints.

A signature's order rule is the one `inspect.Signature` enforces in CPython
3.12 and later:
- kinds never decrease (positional-only, positional-or-keyword, `*args`,
  keyword-only, `**kw`);
- a positional parameter (positional-only or positional-or-keyword) without
  a default may not follow a positional parameter with a default, whichever
  of the two positional kinds each has;
- no name occurs twice.

`Signature.replace` raises `ValueError` on a list that breaks this rule.

## Model

| member | source | states |
|---|---|---|
| Signature.SplitParams | ticli/option.py:20-26 | The split loop leaves the first `n - k` parameters in the leading run and the last `k` in the trailing run, where `k` counts the `*args`, keyword-only and `**kw` parameters anywhere in the list. The two runs concatenate back to the list. |
| Signature.SpliceShape | ticli/option.py:27-29 | The composite list is `|target| + |options|` long. The options sit contiguously, in their order, at the split point. Deleting them gives back the target. |
| Signature.SplitOfOrdered | ticli/option.py:20-26 | For a kind-ordered target, every parameter before the split point is positional and every one from it on is of a trailing kind. |
| Signature.SpliceWithoutTrailing | ticli/option.py:20-29 | A target with no trailing-kind parameter gets the options appended at its end. |
| Signature.SpliceEmptyTarget | ticli/option.py:20-29 | An empty target yields exactly the options. |
| Signature.ReceiverStaysFirst | ticli/option.py:92 | A kind-ordered hook whose first parameter is positional (the receiver) keeps it first in the composite signature. |
| Signature.SpliceKindOrdered | ticli/option.py:27-29 | Keyword-or-positional options keep a kind-ordered target kind-ordered. |
| Signature.SpliceDistinctNames | ticli/option.py:27-29 | Options with distinct names, none shared with the target, keep all names distinct. |
| Signature.SpliceDefaultsOrdered | ticli/option.py:27-29 | Defaulted keyword-or-positional options never put a positional parameter without a default after a defaulted positional one. |
| Signature.SpliceWellFormed | ticli/option.py:27-29 | A well-formed target with distinct, defaulted, keyword-or-positional options that clash with no target name gives a composite list that `Signature.replace` accepts. |
| Signature.SpliceMissingDefaultConflict | ticli/option.py:27-29 | A positional option without a default, spliced after a defaulted positional leading parameter, makes `Signature.replace` raise, even when one of the two is positional-only and the other is not. |
| Signature.PositionalOnlyDefaultConflict | ticli/option.py:27-29 | `_init(self, a=1, /)` with an option `x` that has no default gives `(self, a=1, /, x)`, which `Signature.replace` refuses. |
| Signature.SpliceNameClash | ticli/option.py:27-29 | An option that shares its name with a parameter of the hook makes `Signature.replace` raise. |
| OptionGroup.ConstructInitSig | ticli/option.py:17-30 | `_construct_init_sig` returns the splice of the options into the `_init` parameters when that list is well formed. Otherwise it fails with the `ValueError` of `replace`. |
| OptionGroup.ConstructCallSig | ticli/option.py:33-46 | `_construct_call_sig` computes the same splice into the `_invoke` parameters, with its own error. |
| OptionGroup.HookOrDefault | ticli/option.py:67-84 | `D` uses the class's own hook when it defines one. Otherwise it uses a no-op hook whose only parameter is `self` and which has no docstring. |
| OptionGroup.OptionNamesMatchParams | ticli/option.py:87-89 | When `_options` has only positional parameters, `_option_names` is exactly the names of `_option_params`. Both drop the receiver. |
| OptionGroup.KeywordOnlyOptionNotRouted | ticli/option.py:87-89 | A keyword-only parameter of `_options` is one of `_option_params` (so it is in both signatures) but not one of `_option_names`. |
| OptionGroup.Join | ticli/option.py:63 | `"".join` succeeds exactly when no piece is `None`, and otherwise raises `TypeError`. |
| OptionGroup.MakeDoc | ticli/option.py:49-63 | `_make_doc` succeeds exactly when the class docstring and the docstrings of its present hooks are all strings. The result is the class docstring, then those of `_options`, `_init` and `_invoke`, with `""` for an absent hook. Otherwise it raises `TypeError`. |
| OptionGroup.MakeGroup | ticli/option.py:65-118 | Decoration succeeds exactly when both composite signatures are well formed and every docstring is a string. On success `D` holds the defaulted hooks, the option names and parameters, both splices and the joined docstring. On failure the error is the first raised, in the order the class body runs (init signature, call signature, docstring). |
| OptionGroup.BareClassGroup | ticli/option.py:65-118 | A class with none of the hooks gets `__init__(self)` and `__call__(self)`, no options, and its own docstring. |
| OptionGroup.GroupSignaturesAccepted | ticli/option.py:87-107 | Hooks with valid signatures, plus distinct, defaulted options whose names the hooks do not use, get both composite signatures accepted. |
| OptionGroup.PartitionKw | ticli/option.py:99-102 | After the routing loop, `option_kw` holds exactly the keyword arguments named after an option, with their values. The remaining `kw` holds exactly the others. The two are disjoint and their union is the original `kw`. |
| OptionGroup.Instance.constructor | ticli/option.py:94-104 | `__init__` starts `_option_data` empty. It calls `_options` with the routed option keywords, then `_init` with the positional arguments unchanged and the remaining keywords. |
| OptionGroup.Instance.Call | ticli/option.py:109-115 | `__call__` appends a call of `_options` with the option keywords, then a call of `_invoke` with the positional arguments unchanged and the remaining keywords. `_option_data` is left as it was. |
| Validation.BuildLocation | ticli/validation.py:24-31 | The `+=` loop builds exactly the location string of the path. |
| Validation.LocationShape | ticli/validation.py:24-31 | The location of a one-segment path is that segment verbatim. Every location starts with its first segment. Extending the path by one segment appends `" " + seg` if the segment is numeric and `" -> " + seg` otherwise. |
| Validation.TableKeys | ticli/validation.py:34-44 | A name is in the lookup table exactly when it is a keyword name or one of the positional names the zip reaches (the shorter list bounds the zip). |
| Validation.TablePositionalWins | ticli/validation.py:34-44 | A zipped positional value wins over a keyword value of the same name. Among positional pairs of one name, the last wins. |
| Validation.TableKeywordKept | ticli/validation.py:34-44 | A keyword value whose name no zipped positional name repeats stays in the table unchanged. |
| Validation.BuildTable | ticli/validation.py:34-44 | The `update` and the zip loop build exactly the lookup table: the keyword values overlaid, when both lists are non-empty, by the zipped positional pairs in order. |
| Validation.ResolveValue | ticli/validation.py:46-53 | The scan over `d.items()` and the override give exactly the resolved value. That is a truthy explicit value, else the table entry for the argument name, else `""`. |
| Validation.SuppliedValue | ticli/validation.py:34-53 | A truthy explicit value is reported as is. Without one, a name no zipped positional pair carries reports its keyword value, or `""` when it has none. |
| Validation.SuppliedPositionalValue | ticli/validation.py:34-53 | Without an explicit value, a name carried by zipped positional pairs reports the value of the last such pair. |
| Validation.FormatError | ticli/validation.py:24-59 | One pass of the error loop produces the line for that error: `prog`, the value quoted with a trailing space when it is not empty, the location and the message. |
| Validation.DedupUpToSpec | ticli/validation.py:60-62 | The lines kept after any number of errors contain no duplicates. They are exactly the distinct lines seen so far, ordered by first occurrence. |
| Validation.DedupSpec | ticli/validation.py:20 | The printed lines contain no duplicates. They are exactly the distinct formatted lines, ordered by first occurrence, and there are no more of them than lines. |
| Validation.PrintValidationError | ticli/validation.py:18-62 | The printed lines are the formatted lines of the errors, with duplicates dropped, in first-occurrence order, and no more than the errors. Printing stops with `IndexError` at the first error whose location is empty. `completed` is true exactly when no location is empty. |

## Left out

- `ticli/fire.py` is not part of this model. It is glue around Python Fire and
  pydantic (environment variables, argument validation wrappers, catching
  `ValidationError`).
- `check_type` and `validate_arguments` (`ticli/validation.py:4-15`) build
  pydantic models and coerce values. These are foreign calls. The
  `(location, message)` entries of `exc.errors()` are the input of
  `PrintValidationError`.
- Python reflection is replaced by explicit records:
  - `inspect.signature` and `getfullargspec` become a hook's parameter list;
  - `makefun.with_signature` is not modelled: the model keeps the composite
    signatures but does not forward arguments through them, and `__init__`
    and `__call__` receive `(args, kw)` as given;
  - the `decopatch` decorator protocol is not modelled;
  - `fire.decorators._SetMetadata` (`ticli/option.py:96-98`) is not modelled.
- `Instance.constructor`, `Instance.Call`: the bodies of the user's hooks and
  what they return (the results of `__init__` and `__call__`) are not
  modelled. The calls made on them are recorded instead.
- The debug `print("adding ...")` calls (`ticli/option.py:70,76,82`) are
  console output only.
- Printing is modelled as returning the printed lines. `sys.argv[0]` is the
  parameter `prog`.
- `Validation.IsNumeric`: Unicode `str.isnumeric` is approximated as "a
  non-empty run of ASCII digits".
- `Validation.Truthy`: the truthiness of `value` is approximated as "present
  and not the empty string". A falsy non-string value such as `0` is not
  distinguished.
- `Validation.PrintValidationError`:
  - location segments, dictionary values and positional values are taken in
    their `str()` form;
  - `None` for `value_dict`, `arg_names` or `arg_values` is taken as empty,
    which is how the source treats them.
- `OptionGroup.MakeGroup`: a `None` docstring makes `"".join` raise
  `TypeError`. This is modelled as the error `DocNotString`, not as a
  precondition.
- Inheritance merging of options, resetting options and validated attribute
  assignment have no source in this repository and are not modelled. The
  example scripts and `test/run_test.py` use a newer API that is not part of
  `ticli/option.py`.
- `ticli/__init__.py` and `setup.py` are packaging and re-exports.
- `Signature.WellFormed`: CPython releases before 3.12 apply the default rule
  to each positional kind separately. They accept a positional-or-keyword
  parameter without a default after a positional-only one with a default.
  The model uses the later rule, so on those releases it reports a conflict
  for `(self, a=1, /, x)` where Python accepts it.

## Notes on what the code does

- The split point is `n - k`, where `k` counts the trailing-kind parameters
  anywhere in the list. For a kind-ordered list, as every Python signature
  is, this is the first `*args`, keyword-only or `**kw` parameter
  (`Signature.SplitOfOrdered`).
- The receiver of `_init` and `_invoke` stays at the front of the leading run
  (`Signature.ReceiverStaysFirst`).
- Keyword-only option parameters appear in both composite signatures but are
  not routed to `_options`, because `getfullargspec()[0]` lists only
  positional names (`OptionGroup.KeywordOnlyOptionNotRouted`). A value given
  for one goes to `_init` or `_invoke`.
- `print_validation_error` raises `IndexError` at the first error whose
  location is empty. The lines of the errors before it have been printed.
