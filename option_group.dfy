/**
  The `group` class decorator: from a user class `C` it builds a subclass `D`
  whose `__init__` and `__call__` accept the option parameters of
  `C._options` spliced into the signatures of `C._init` and `C._invoke`, route
  option keyword arguments to `_options` and the rest to the hook, and whose
  docstring joins those of the class and its three hooks.

  Python reflection is replaced by explicit records: a hook is its parameter
  list and its docstring, and a class is its docstring and the hooks it defines.
 */
module OptionGroup {
  import opened Wrappers
  import opened Signature

  /** A method of the user class: its parameters (receiver first) and its `__doc__`. */
  datatype Hook = Hook(params: seq<Param>, doc: Option<string>)

  /** The decorated class `C`: its `__doc__` and which of the three hooks it defines. */
  datatype UserClass = UserClass(doc: Option<string>, options: Option<Hook>, init: Option<Hook>, invoke: Option<Hook>)

  /** Why decoration raises instead of returning `D`. */
  datatype GroupError =
    | InitSignatureConflict  // `_init_sig`: `Signature.replace` raised `ValueError`
    | CallSignatureConflict  // `_call_sig`: `Signature.replace` raised `ValueError`
    | DocNotString           // `"".join` met a `None` docstring and raised `TypeError`

  /** The class attributes of the synthesized subclass `D`. */
  datatype Group = Group(
    options: Hook,
    init: Hook,
    invoke: Hook,
    optionNames: seq<string>,
    optionParams: seq<Param>,
    initSig: seq<Param>,
    callSig: seq<Param>,
    doc: string)

  // ---------------------------------------------------------------------
  // Default hooks and option extraction
  // ---------------------------------------------------------------------

  /** The no-op `def _x(self): pass` that `D` installs for a hook `C` lacks. */
  function DefaultHook(): Hook
  {
    Hook([Param("self", PositionalOrKeyword, false)], None)
  }

  /** The hook `D` uses: the class's own when it has one, else the no-op default. */
  function HookOrDefault(h: Option<Hook>): (r: Hook)
    ensures h.Some? ==> r == h.value
    ensures h.None? ==> r.params == [Param("self", PositionalOrKeyword, false)] && r.doc.None?
  {
    if h.Some? then h.value else DefaultHook()
  }

  /** Python's `xs[1:]`: everything after the first element, empty when there is none. */
  function DropFirst<T>(xs: seq<T>): (r: seq<T>)
    ensures |xs| > 0 ==> r == xs[1..]
    ensures |xs| == 0 ==> r == []
  {
    if |xs| == 0 then [] else xs[1..]
  }

  /** The names `getfullargspec` reports as `args`: those of the positional parameters, in order. */
  function ArgNames(ps: seq<Param>): (ns: seq<string>)
    ensures |ns| <= |ps|
  {
    if ps == [] then []
    else (if IsPositional(ps[0].kind) then [ps[0].name] else []) + ArgNames(ps[1..])
  }

  /** `_option_names`: the `args` of `_options` without the receiver. */
  function OptionNames(options: Hook): seq<string>
  {
    DropFirst(ArgNames(options.params))
  }

  /** `_option_params`: the parameters of `_options` without the receiver. */
  function OptionParams(options: Hook): seq<Param>
  {
    DropFirst(options.params)
  }

  lemma {:induction false} ArgNamesOfPositional(ps: seq<Param>)
    requires forall i :: 0 <= i < |ps| ==> IsPositional(ps[i].kind)
    ensures ArgNames(ps) == Names(ps)
  {
    if ps != [] {
      ArgNamesOfPositional(ps[1..]);
    }
  }

  lemma {:induction false} NotAnArgName(ps: seq<Param>, n: string)
    requires forall i :: 0 <= i < |ps| && IsPositional(ps[i].kind) ==> ps[i].name != n
    ensures n !in ArgNames(ps)
  {
    if ps != [] {
      NotAnArgName(ps[1..], n);
    }
  }

  /**
    When every parameter of `_options` is positional (an ordinary `def`), the
    option names are exactly the names of the option parameters: both drop
    the receiver.
   */
  lemma OptionNamesMatchParams(options: Hook)
    requires forall i :: 0 <= i < |options.params| ==> IsPositional(options.params[i].kind)
    ensures OptionNames(options) == Names(OptionParams(options))
  {
    ArgNamesOfPositional(options.params);
    if |options.params| > 0 {
      ArgNamesOfPositional(options.params[1..]);
    }
  }

  /**
    A keyword-only option parameter is part of the composite signatures but
    not of `_option_names`, so a value supplied for it is routed to the hook
    (`_init` or `_invoke`) and not to `_options`.
   */
  lemma KeywordOnlyOptionNotRouted(options: Hook, j: nat)
    requires DistinctNames(options.params)
    requires 0 < j < |options.params| && options.params[j].kind == KeywordOnly
    ensures options.params[j] in OptionParams(options)
    ensures options.params[j].name !in OptionNames(options)
  {
    var ps := options.params;
    assert ps[j] == ps[1..][j - 1];
    NotAnArgName(ps, ps[j].name);
  }

  // ---------------------------------------------------------------------
  // Composite signatures (_construct_init_sig, _construct_call_sig)
  // ---------------------------------------------------------------------

  /**
    `Signature.replace(parameters=ps)`: the new signature when `ps` is one
    that `inspect.Signature` accepts, else the `ValueError` it raises.
   */
  function Replace(ps: seq<Param>, conflict: GroupError): (r: Result<seq<Param>, GroupError>)
  {
    if WellFormed(ps) then Success(ps) else Failure(conflict)
  }

  /** `_construct_init_sig`: the signature of `_init` with the options spliced in. */
  method ConstructInitSig(init: Hook, optionParams: seq<Param>) returns (r: Result<seq<Param>, GroupError>)
    ensures WellFormed(Splice(init.params, optionParams)) ==> r == Success(Splice(init.params, optionParams))
    ensures !WellFormed(Splice(init.params, optionParams)) ==> r == Failure(InitSignatureConflict)
  {
    var leading, trailing := SplitParams(init.params);
    r := Replace(leading + optionParams + trailing, InitSignatureConflict);
  }

  /** `_construct_call_sig`: the signature of `_invoke` with the options spliced in. */
  method ConstructCallSig(invoke: Hook, optionParams: seq<Param>) returns (r: Result<seq<Param>, GroupError>)
    ensures WellFormed(Splice(invoke.params, optionParams)) ==> r == Success(Splice(invoke.params, optionParams))
    ensures !WellFormed(Splice(invoke.params, optionParams)) ==> r == Failure(CallSignatureConflict)
  {
    var leading, trailing := SplitParams(invoke.params);
    r := Replace(leading + optionParams + trailing, CallSignatureConflict);
  }

  // ---------------------------------------------------------------------
  // Documentation (_make_doc)
  // ---------------------------------------------------------------------

  /** `getattr(C, name)` for the three hook names, `None` when `C` has no such attribute. */
  function Attr(c: UserClass, name: string): Option<Hook>
  {
    if name == "_options" then c.options
    else if name == "_init" then c.init
    else if name == "_invoke" then c.invoke
    else None
  }

  /** The docstring `_make_doc` takes for a hook: `""` when the class lacks it, else its `__doc__`. */
  function HookDoc(h: Option<Hook>): Option<string>
  {
    if h.None? then Some("") else h.value.doc
  }

  /** Every piece `_make_doc` joins is a string (no `None` docstring among them). */
  predicate DocsAreStrings(c: UserClass)
  {
    c.doc.Some? && HookDoc(c.options).Some? && HookDoc(c.init).Some? && HookDoc(c.invoke).Some?
  }

  /** The documentation of `D`: the class docstring, then those of `_options`, `_init` and `_invoke`. */
  function ComposedDoc(c: UserClass): string
    requires DocsAreStrings(c)
  {
    c.doc.value + HookDoc(c.options).value + HookDoc(c.init).value + HookDoc(c.invoke).value
  }

  /** `"".join(docs)`: the concatenation, or the `TypeError` raised for a `None` element. */
  function Join(docs: seq<Option<string>>): (r: Result<string, GroupError>)
    ensures r.Success? <==> forall i :: 0 <= i < |docs| ==> docs[i].Some?
    ensures r.Failure? ==> r.error == DocNotString
  {
    if docs == [] then Success("")
    else if docs[0].None? then Failure(DocNotString)
    else match Join(docs[1..])
      case Success(rest) => Success(docs[0].value + rest)
      case Failure(e) => Failure(e)
  }

  /** `_make_doc(C)`: collect the four docstrings in order and join them. */
  method MakeDoc(c: UserClass) returns (r: Result<string, GroupError>)
    ensures r.Success? <==> DocsAreStrings(c)
    ensures r.Success? ==> r.value == ComposedDoc(c)
    ensures r.Failure? ==> r.error == DocNotString
  {
    var methodsWithDoc := ["_options", "_init", "_invoke"];
    var docs := [c.doc];
    for i := 0 to |methodsWithDoc|
      invariant |docs| == i + 1 && docs[0] == c.doc
      invariant forall k :: 0 <= k < i ==> docs[k + 1] == HookDoc(Attr(c, methodsWithDoc[k]))
    {
      var doc: Option<string> := Some("");
      var m := Attr(c, methodsWithDoc[i]);
      if m.Some? {
        // a function object always has a `__doc__` attribute, `None` when it has no docstring
        doc := m.value.doc;
      }
      docs := docs + [doc];
    }
    assert Attr(c, "_options") == c.options && Attr(c, "_init") == c.init && Attr(c, "_invoke") == c.invoke;
    assert docs == [c.doc, HookDoc(c.options), HookDoc(c.init), HookDoc(c.invoke)] by {
      assert docs[1] == HookDoc(Attr(c, methodsWithDoc[0]));
      assert docs[2] == HookDoc(Attr(c, methodsWithDoc[1]));
      assert docs[3] == HookDoc(Attr(c, methodsWithDoc[2]));
    }
    r := Join(docs);
    if DocsAreStrings(c) {
      JoinOfFour(c.doc.value, HookDoc(c.options).value, HookDoc(c.init).value, HookDoc(c.invoke).value);
    } else if c.doc.None? {
      assert docs[0].None?;
    } else if HookDoc(c.options).None? {
      assert docs[1].None?;
    } else if HookDoc(c.init).None? {
      assert docs[2].None?;
    } else {
      assert docs[3].None?;
    }
  }

  lemma JoinOfFour(a: string, b: string, c: string, d: string)
    ensures Join([Some(a), Some(b), Some(c), Some(d)]) == Success(a + b + c + d)
  {
    var docs := [Some(a), Some(b), Some(c), Some(d)];
    assert docs[1..] == [Some(b), Some(c), Some(d)];
    assert docs[1..][1..] == [Some(c), Some(d)];
    assert docs[1..][1..][1..] == [Some(d)];
    assert docs[1..][1..][1..][1..] == [];
    assert Join(docs[1..][1..][1..]) == Success(d + "");
    assert d + "" == d;
    assert Join(docs[1..][1..]) == Success(c + d);
    assert Join(docs[1..]) == Success(b + (c + d));
    assert a + (b + (c + d)) == a + b + c + d;
  }

  // ---------------------------------------------------------------------
  // The decorator (`group`, class body of `D`)
  // ---------------------------------------------------------------------

  /**
    `group(C)`: install default hooks, extract the options, build both
    composite signatures and the docstring, in the order the class body of
    `D` evaluates them; the first one that raises aborts decoration.
   */
  method MakeGroup(c: UserClass) returns (r: Result<Group, GroupError>)
    ensures var options, init, invoke := HookOrDefault(c.options), HookOrDefault(c.init), HookOrDefault(c.invoke);
      var initSig, callSig := Splice(init.params, OptionParams(options)), Splice(invoke.params, OptionParams(options));
      && (r.Success? <==> WellFormed(initSig) && WellFormed(callSig) && DocsAreStrings(c))
      && (r.Success? ==> r.value == Group(options, init, invoke, OptionNames(options), OptionParams(options),
                                          initSig, callSig, ComposedDoc(c)))
      && (r.Failure? ==> r.error == if !WellFormed(initSig) then InitSignatureConflict
                                   else if !WellFormed(callSig) then CallSignatureConflict
                                   else DocNotString)
  {
    var options := HookOrDefault(c.options);
    var init := HookOrDefault(c.init);
    var invoke := HookOrDefault(c.invoke);
    var optionNames := OptionNames(options);
    var optionParams := OptionParams(options);
    var initSig := ConstructInitSig(init, optionParams);
    if initSig.Failure? {
      return Failure(initSig.error);
    }
    var callSig := ConstructCallSig(invoke, optionParams);
    if callSig.Failure? {
      return Failure(callSig.error);
    }
    var doc := MakeDoc(c);
    if doc.Failure? {
      return Failure(doc.error);
    }
    r := Success(Group(options, init, invoke, optionNames, optionParams, initSig.value, callSig.value, doc.value));
  }

  /**
    A class that defines none of the hooks gets `__init__(self)` and
    `__call__(self)`, no options, and its own docstring as documentation.
   */
  lemma BareClassGroup(doc: string)
    ensures var c := UserClass(Some(doc), None, None, None);
      var self := DefaultHook().params;
      && OptionParams(HookOrDefault(c.options)) == [] && OptionNames(HookOrDefault(c.options)) == []
      && Splice(HookOrDefault(c.init).params, []) == self && WellFormed(self)
      && Splice(HookOrDefault(c.invoke).params, []) == self
      && DocsAreStrings(c) && ComposedDoc(c) == doc
  {
  }

  /**
    Decoration gets past both signature constructions when the hooks have
    valid signatures and `_options` declares distinct, defaulted,
    keyword-or-positional options whose names the hooks do not use.
   */
  lemma GroupSignaturesAccepted(c: UserClass)
    requires var o, i, v := OptionParams(HookOrDefault(c.options)), HookOrDefault(c.init).params, HookOrDefault(c.invoke).params;
      && DistinctNames(o)
      && (forall j :: 0 <= j < |o| ==> o[j].kind == PositionalOrKeyword && o[j].hasDefault)
      && WellFormed(i) && WellFormed(v)
      && (forall a, b :: 0 <= a < |i| && 0 <= b < |o| ==> i[a].name != o[b].name)
      && (forall a, b :: 0 <= a < |v| && 0 <= b < |o| ==> v[a].name != o[b].name)
    ensures var o := OptionParams(HookOrDefault(c.options));
      && WellFormed(Splice(HookOrDefault(c.init).params, o))
      && WellFormed(Splice(HookOrDefault(c.invoke).params, o))
  {
    var o := OptionParams(HookOrDefault(c.options));
    SpliceWellFormed(HookOrDefault(c.init).params, o);
    SpliceWellFormed(HookOrDefault(c.invoke).params, o);
  }

  // ---------------------------------------------------------------------
  // Keyword routing (`__init__`, `__call__`)
  // ---------------------------------------------------------------------

  /** The keyword arguments addressed to `_options`. */
  function OptionKw<V>(names: seq<string>, kw: map<string, V>): map<string, V>
  {
    map k | k in kw && k in names :: kw[k]
  }

  /** The keyword arguments left for the hook. */
  function RestKw<V>(names: seq<string>, kw: map<string, V>): map<string, V>
  {
    map k | k in kw && k !in names :: kw[k]
  }

  /**
    The routing loop: for each option name present in `kw`, pop it from `kw`
    into `option_kw`.
   */
  method PartitionKw<V>(names: seq<string>, kw: map<string, V>) returns (optionKw: map<string, V>, rest: map<string, V>)
    ensures optionKw == OptionKw(names, kw) && rest == RestKw(names, kw)
    ensures forall k :: k in optionKw <==> k in kw && k in names
    ensures forall k :: k in rest <==> k in kw && k !in names
    ensures forall k :: k in optionKw ==> optionKw[k] == kw[k]
    ensures forall k :: k in rest ==> rest[k] == kw[k]
    ensures optionKw.Keys !! rest.Keys && optionKw + rest == kw
  {
    optionKw := map[];
    rest := kw;
    for i := 0 to |names|
      invariant optionKw == OptionKw(names[..i], kw)
      invariant rest == RestKw(names[..i], kw)
    {
      var n := names[i];
      RouteStep(names, kw, i);
      if n in rest {
        optionKw := optionKw[n := rest[n]];
        rest := rest - {n};
      }
    }
    assert names[..|names|] == names;
    RoutePartitions(names, kw);
  }

  /** One more option name moves its keyword, if present and not yet moved, from the rest to the options. */
  lemma RouteStep<V>(names: seq<string>, kw: map<string, V>, i: nat)
    requires i < |names|
    ensures var n, o, r := names[i], OptionKw(names[..i], kw), RestKw(names[..i], kw);
      && OptionKw(names[..i + 1], kw) == (if n in r then o[n := r[n]] else o)
      && RestKw(names[..i + 1], kw) == (if n in r then r - {n} else r)
  {
    assert names[..i + 1] == names[..i] + [names[i]];
  }

  /** The two routed maps split `kw` by key, keeping every value. */
  lemma RoutePartitions<V>(names: seq<string>, kw: map<string, V>)
    ensures var o, r := OptionKw(names, kw), RestKw(names, kw);
      && (forall k :: k in o <==> k in kw && k in names)
      && (forall k :: k in r <==> k in kw && k !in names)
      && (forall k :: k in o ==> o[k] == kw[k])
      && (forall k :: k in r ==> r[k] == kw[k])
      && o.Keys !! r.Keys && o + r == kw
  {
  }

  /** A call made on one of the user's hooks, with the arguments it received. */
  datatype HookCall<V> =
    | OptionsCalled(kw: map<string, V>)
    | InitCalled(args: seq<V>, kw: map<string, V>)
    | InvokeCalled(args: seq<V>, kw: map<string, V>)

  /**
    An instance of `D`. The user's hooks are not modelled; `calls` records
    each call made on them, in order.
   */
  class Instance<V> {
    const group: Group
    var optionData: map<string, V>
    var calls: seq<HookCall<V>>

    /** `D.__init__(self, *args, **kw)`. */
    constructor (g: Group, args: seq<V>, kw: map<string, V>)
      ensures group == g && optionData == map[]
      ensures calls == [OptionsCalled(OptionKw(g.optionNames, kw)), InitCalled(args, RestKw(g.optionNames, kw))]
    {
      group := g;
      optionData := map[];
      var optionKw, rest := PartitionKw(g.optionNames, kw);
      calls := [OptionsCalled(optionKw)];
      calls := calls + [InitCalled(args, rest)];
    }

    /** `D.__call__(self, *args, **kw)`. */
    method Call(args: seq<V>, kw: map<string, V>)
      modifies this`calls
      ensures optionData == old(optionData)
      ensures calls == old(calls) + [OptionsCalled(OptionKw(group.optionNames, kw)),
                                     InvokeCalled(args, RestKw(group.optionNames, kw))]
    {
      var optionKw, rest := PartitionKw(group.optionNames, kw);
      calls := calls + [OptionsCalled(optionKw)];
      calls := calls + [InvokeCalled(args, rest)];
    }
  }
}
