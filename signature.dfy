/**
  Parameter lists of Python callables, as `inspect.Signature` describes them,
  and the rule by which the option-group decorator splices option parameters
  into the parameter list of a lifecycle hook (`_init` or `_invoke`).
 */
module Signature {

  /** The five kinds of a Python parameter, in the order a signature must list them. */
  datatype Kind = PositionalOnly | PositionalOrKeyword | VarPositional | KeywordOnly | VarKeyword

  /** The position of a kind in the order a signature must respect. */
  function Rank(k: Kind): nat
  {
    match k
    case PositionalOnly => 0
    case PositionalOrKeyword => 1
    case VarPositional => 2
    case KeywordOnly => 3
    case VarKeyword => 4
  }

  /** One parameter: its name, its kind and whether it declares a default value. */
  datatype Param = Param(name: string, kind: Kind, hasDefault: bool)

  /** Kinds that may be given positionally (the ones `getfullargspec` lists as `args`). */
  predicate IsPositional(k: Kind)
  {
    k == PositionalOnly || k == PositionalOrKeyword
  }

  /** Kinds that the split loop moves to the trailing run: `*args`, keyword-only, `**kw`. */
  predicate IsTrailingKind(k: Kind)
  {
    k == VarPositional || k == KeywordOnly || k == VarKeyword
  }

  /** The parameter names, in order. */
  function Names(ps: seq<Param>): (ns: seq<string>)
    ensures |ns| == |ps|
    ensures forall i :: 0 <= i < |ps| ==> ns[i] == ps[i].name
  {
    if ps == [] then [] else [ps[0].name] + Names(ps[1..])
  }

  // ---------------------------------------------------------------------
  // What `inspect.Signature(...)` and `Signature.replace` accept
  // ---------------------------------------------------------------------

  /** Kinds never decrease from left to right. */
  predicate KindOrdered(ps: seq<Param>)
  {
    forall i, j :: 0 <= i < j < |ps| ==> Rank(ps[i].kind) <= Rank(ps[j].kind)
  }

  /** No name occurs twice. */
  predicate DistinctNames(ps: seq<Param>)
  {
    forall i, j :: 0 <= i < j < |ps| ==> ps[i].name != ps[j].name
  }

  /**
    No positional parameter without a default follows a positional parameter
    with a default, whether the two are of the same kind or one is
    positional-only and the other positional-or-keyword.
   */
  predicate DefaultsOrdered(ps: seq<Param>)
  {
    forall i, j :: 0 <= i < j < |ps| && IsPositional(ps[i].kind) && IsPositional(ps[j].kind) && ps[i].hasDefault
      ==> ps[j].hasDefault
  }

  /**
    The checks `inspect.Signature` of CPython 3.12 and later makes when it is
    built from a parameter list: it raises `ValueError` on a wrong kind order,
    on "non-default argument follows default argument", and on a duplicate
    name.
   */
  predicate WellFormed(ps: seq<Param>)
  {
    KindOrdered(ps) && DistinctNames(ps) && DefaultsOrdered(ps)
  }

  // ---------------------------------------------------------------------
  // The splice (option.py, _construct_init_sig and _construct_call_sig)
  // ---------------------------------------------------------------------

  /** The number of trailing-kind parameters among `ps[j..]`. */
  function CountFrom(ps: seq<Param>, j: nat): (k: nat)
    requires j <= |ps|
    ensures k <= |ps| - j
    decreases |ps| - j
  {
    if j == |ps| then 0
    else (if IsTrailingKind(ps[j].kind) then 1 else 0) + CountFrom(ps, j + 1)
  }

  /** The number of trailing-kind parameters anywhere in `ps`. */
  function CountTrailing(ps: seq<Param>): (k: nat)
    ensures k <= |ps|
  {
    CountFrom(ps, 0)
  }

  /**
    Where the options go: the split loop pops one element off the end of the
    leading run for every trailing-kind parameter it meets, so the leading run
    keeps the first `|ps| - k` parameters.
   */
  function SplitPoint(ps: seq<Param>): (s: nat)
    ensures s <= |ps|
  {
    |ps| - CountTrailing(ps)
  }

  /** The composite parameter list: leading run, then the options, then the trailing run. */
  function Splice(target: seq<Param>, options: seq<Param>): seq<Param>
  {
    target[..SplitPoint(target)] + options + target[SplitPoint(target)..]
  }

  /**
    The split loop: walk the parameters from the last to the first and, for
    each trailing-kind one, move the last element of `leading` to the front of
    `trailing`.
   */
  method SplitParams(params: seq<Param>) returns (leading: seq<Param>, trailing: seq<Param>)
    ensures leading == params[..SplitPoint(params)]
    ensures trailing == params[SplitPoint(params)..]
    ensures leading + trailing == params
    ensures |trailing| == CountTrailing(params)
  {
    leading := params;
    trailing := [];
    var j := |params|;
    while j > 0
      invariant 0 <= j <= |params|
      invariant leading == params[..|params| - CountFrom(params, j)]
      invariant trailing == params[|params| - CountFrom(params, j)..]
    {
      j := j - 1;
      if IsTrailingKind(params[j].kind) {
        trailing := [leading[|leading| - 1]] + trailing;
        leading := leading[..|leading| - 1];
      }
    }
  }

  // ---------------------------------------------------------------------
  // Properties of the splice
  // ---------------------------------------------------------------------

  /**
    The options occupy one contiguous block, in their given order, and
    deleting that block gives back the target unchanged.
   */
  lemma SpliceShape(target: seq<Param>, options: seq<Param>)
    ensures var r, s := Splice(target, options), SplitPoint(target);
      && |r| == |target| + |options|
      && r[s..s + |options|] == options
      && r[..s] + r[s + |options|..] == target
  {
    var r, s := Splice(target, options), SplitPoint(target);
    assert r[..s] == target[..s];
    assert r[s + |options|..] == target[s..];
  }

  /** With no trailing-kind parameter the options are appended at the end. */
  lemma SpliceWithoutTrailing(target: seq<Param>, options: seq<Param>)
    requires forall i :: 0 <= i < |target| ==> !IsTrailingKind(target[i].kind)
    ensures Splice(target, options) == target + options
  {
    NoTrailingCount(target, 0);
  }

  lemma {:induction false} NoTrailingCount(ps: seq<Param>, j: nat)
    requires j <= |ps|
    requires forall i :: j <= i < |ps| ==> !IsTrailingKind(ps[i].kind)
    ensures CountFrom(ps, j) == 0
    decreases |ps| - j
  {
    if j < |ps| {
      NoTrailingCount(ps, j + 1);
    }
  }

  /** An empty target yields exactly the options. */
  lemma SpliceEmptyTarget(options: seq<Param>)
    ensures Splice([], options) == options
  {
  }

  /**
    In a kind-ordered list the parameters from `j` on split into a run without
    trailing-kind parameters followed by a run of trailing-kind ones only, and
    the second run is `CountFrom(ps, j)` long.
   */
  lemma {:induction false} OrderedCount(ps: seq<Param>, j: nat)
    requires KindOrdered(ps) && j <= |ps|
    ensures forall i :: j <= i < |ps| - CountFrom(ps, j) ==> !IsTrailingKind(ps[i].kind)
    ensures forall i :: |ps| - CountFrom(ps, j) <= i < |ps| ==> IsTrailingKind(ps[i].kind)
    decreases |ps| - j
  {
    if j < |ps| {
      OrderedCount(ps, j + 1);
      if IsTrailingKind(ps[j].kind) {
        assert forall i :: j < i < |ps| ==> Rank(ps[j].kind) <= Rank(ps[i].kind);
      }
    }
  }

  /**
    For a kind-ordered target (every Python signature is one) the leading run
    holds no trailing-kind parameter and the trailing run holds nothing else:
    the split is at the first `*args`, keyword-only or `**kw` parameter.
   */
  lemma SplitOfOrdered(ps: seq<Param>)
    requires KindOrdered(ps)
    ensures forall i :: 0 <= i < SplitPoint(ps) ==> !IsTrailingKind(ps[i].kind)
    ensures forall i :: SplitPoint(ps) <= i < |ps| ==> IsTrailingKind(ps[i].kind)
  {
    OrderedCount(ps, 0);
  }

  /** The receiver (`self`) of a hook stays the first parameter of the composite signature. */
  lemma ReceiverStaysFirst(target: seq<Param>, options: seq<Param>)
    requires KindOrdered(target)
    requires |target| > 0 && IsPositional(target[0].kind)
    ensures Splice(target, options)[0] == target[0]
  {
    SplitOfOrdered(target);
    assert SplitPoint(target) > 0;
  }

  /**
    A well-formed hook signature with ordinary defaulted option parameters,
    whose names clash with none of the hook's, gives a composite signature
    that `Signature.replace` accepts.
   */
  lemma SpliceWellFormed(target: seq<Param>, options: seq<Param>)
    requires WellFormed(target)
    requires DistinctNames(options)
    requires forall j :: 0 <= j < |options| ==> options[j].kind == PositionalOrKeyword && options[j].hasDefault
    requires forall i, j :: 0 <= i < |target| && 0 <= j < |options| ==> target[i].name != options[j].name
    ensures WellFormed(Splice(target, options))
  {
    SpliceKindOrdered(target, options);
    SpliceDistinctNames(target, options);
    SpliceDefaultsOrdered(target, options);
  }

  /** Where each position of the composite list comes from. */
  lemma SpliceAt(target: seq<Param>, options: seq<Param>)
    ensures var r, s, m := Splice(target, options), SplitPoint(target), |options|;
      && |r| == |target| + m
      && (forall i :: 0 <= i < s ==> r[i] == target[i])
      && (forall i :: s <= i < s + m ==> r[i] == options[i - s])
      && (forall i :: s + m <= i < |r| ==> r[i] == target[i - m])
  {
  }

  /** Ordinary option parameters keep the kind order of a kind-ordered target. */
  lemma SpliceKindOrdered(target: seq<Param>, options: seq<Param>)
    requires KindOrdered(target)
    requires forall j :: 0 <= j < |options| ==> options[j].kind == PositionalOrKeyword
    ensures KindOrdered(Splice(target, options))
  {
    SplitOfOrdered(target);
    SpliceAt(target, options);
    var r, s, m := Splice(target, options), SplitPoint(target), |options|;
    forall i, j | 0 <= i < j < |r|
      ensures Rank(r[i].kind) <= Rank(r[j].kind)
    {
      if j < s {
      } else if j < s + m {
        if i < s {
          assert !IsTrailingKind(target[i].kind);
        }
      } else {
        assert IsTrailingKind(target[j - m].kind);
      }
    }
  }

  /** Option names distinct among themselves and from the target's keep all names distinct. */
  lemma SpliceDistinctNames(target: seq<Param>, options: seq<Param>)
    requires DistinctNames(target) && DistinctNames(options)
    requires forall i, j :: 0 <= i < |target| && 0 <= j < |options| ==> target[i].name != options[j].name
    ensures DistinctNames(Splice(target, options))
  {
    SpliceAt(target, options);
    var r, s, m := Splice(target, options), SplitPoint(target), |options|;
    forall i, j | 0 <= i < j < |r|
      ensures r[i].name != r[j].name
    {
      if s + m <= i {
        assert target[i - m] == r[i] && target[j - m] == r[j];
      }
    }
  }

  /** Defaulted keyword-or-positional options never precede a positional parameter without default. */
  lemma SpliceDefaultsOrdered(target: seq<Param>, options: seq<Param>)
    requires KindOrdered(target) && DefaultsOrdered(target)
    requires forall j :: 0 <= j < |options| ==> options[j].kind == PositionalOrKeyword && options[j].hasDefault
    ensures DefaultsOrdered(Splice(target, options))
  {
    SplitOfOrdered(target);
    SpliceAt(target, options);
    var r, s, m := Splice(target, options), SplitPoint(target), |options|;
    // the trailing run holds no positional parameter
    assert forall j :: s + m <= j < |r| ==> IsTrailingKind(r[j].kind);
    forall i, j | 0 <= i < j < |r| && IsPositional(r[i].kind) && IsPositional(r[j].kind) && r[i].hasDefault
      ensures r[j].hasDefault
    {
      if j < s {
        assert r[i] == target[i] && r[j] == target[j];
      }
    }
  }

  /**
    A positional option without a default placed after a leading positional
    parameter that has one makes `Signature.replace` raise, also when one of
    the two is positional-only and the other is not.
   */
  lemma SpliceMissingDefaultConflict(target: seq<Param>, options: seq<Param>, i: nat, j: nat)
    requires i < SplitPoint(target) && j < |options|
    requires IsPositional(target[i].kind) && IsPositional(options[j].kind)
    requires target[i].hasDefault && !options[j].hasDefault
    ensures !WellFormed(Splice(target, options))
  {
    var r := Splice(target, options);
    var s := SplitPoint(target);
    assert r[i] == target[i] && r[s + j] == options[j];
  }

  /**
    `_init(self, a=1, /)` with an option `x` that has no default: the
    composite `(self, a=1, /, x)` is refused, although `a` is positional-only
    and `x` is positional-or-keyword.
   */
  lemma PositionalOnlyDefaultConflict()
    ensures var target := [Param("self", PositionalOnly, false), Param("a", PositionalOnly, true)];
      !WellFormed(Splice(target, [Param("x", PositionalOrKeyword, false)]))
  {
    var target := [Param("self", PositionalOnly, false), Param("a", PositionalOnly, true)];
    assert SplitPoint(target) == 2;
    SpliceMissingDefaultConflict(target, [Param("x", PositionalOrKeyword, false)], 1, 0);
  }

  /** An option that shares its name with a parameter of the hook makes `Signature.replace` raise. */
  lemma SpliceNameClash(target: seq<Param>, options: seq<Param>, i: nat, j: nat)
    requires i < |target| && j < |options|
    requires target[i].name == options[j].name
    ensures !WellFormed(Splice(target, options))
  {
    var r := Splice(target, options);
    var s := SplitPoint(target);
    var m := |options|;
    if i < s {
      assert r[i] == target[i] && r[s + j] == options[j];
    } else {
      assert r[s + j] == options[j] && r[i + m] == target[i];
    }
  }
}

