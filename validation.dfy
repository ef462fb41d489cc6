/**
  `print_validation_error`: turn the (location, message) entries of a
  validation failure into one diagnostic line each, resolving the value the
  user supplied for the failing argument and printing each distinct line once.

  Printing is modelled as returning the printed lines in order; the program
  name (`sys.argv[0]`) is a parameter. Values are taken in their `str()` form.
 */
module Validation {
  import opened Wrappers

  /** One entry of `exc.errors()`: its location path (each segment `str()`-ed) and its message. */
  datatype ErrorEntry = ErrorEntry(loc: seq<string>, msg: string)

  // ---------------------------------------------------------------------
  // Location string
  // ---------------------------------------------------------------------

  /** `str.isnumeric`, restricted to ASCII: a non-empty run of decimal digits. */
  predicate IsNumeric(s: string)
  {
    |s| > 0 && forall i :: 0 <= i < |s| ==> '0' <= s[i] <= '9'
  }

  /** How a later segment of a location is appended: a sequence index after a space, a field name after an arrow. */
  function Segment(e: string): string
  {
    if IsNumeric(e) then " " + e else " -> " + e
  }

  /** The location built from the first `i` segments of `loc`. */
  function LocationUpTo(loc: seq<string>, i: nat): string
    requires 1 <= i <= |loc|
  {
    if i == 1 then loc[0] else LocationUpTo(loc, i - 1) + Segment(loc[i - 1])
  }

  /**
    The argument name of an error: its first segment verbatim, then each later
    segment in its appended form.
   */
  function Location(loc: seq<string>): string
    requires |loc| > 0
  {
    LocationUpTo(loc, |loc|)
  }

  lemma {:induction false} LocationUpToPrefix(loc: seq<string>, more: seq<string>, i: nat)
    requires 1 <= i <= |loc|
    ensures LocationUpTo(loc + more, i) == LocationUpTo(loc, i)
  {
    if i > 1 {
      LocationUpToPrefix(loc, more, i - 1);
      assert (loc + more)[i - 1] == loc[i - 1];
    }
  }

  /**
    The location string starts with the first segment verbatim, and extending
    a path by one segment extends its location by that segment in its
    appended form.
   */
  lemma {:induction false} LocationShape(loc: seq<string>, e: string)
    requires |loc| > 0
    ensures Location([loc[0]]) == loc[0]
    ensures loc[0] <= Location(loc)
    ensures Location(loc + [e]) == Location(loc) + Segment(e)
  {
    var ext := loc + [e];
    assert ext[|loc|] == e;
    assert Location(ext) == LocationUpTo(ext, |loc|) + Segment(e);
    LocationUpToPrefix(loc, [e], |loc|);
    LocationStartsWithHead(loc, |loc|);
  }

  lemma {:induction false} LocationStartsWithHead(loc: seq<string>, i: nat)
    requires 1 <= i <= |loc|
    ensures loc[0] <= LocationUpTo(loc, i)
  {
    if i > 1 {
      LocationStartsWithHead(loc, i - 1);
    }
  }

  /** The loop that grows `error_loc` with `+=`. */
  method BuildLocation(loc: seq<string>) returns (errorLoc: string)
    requires |loc| > 0
    ensures errorLoc == Location(loc)
  {
    errorLoc := loc[0];
    for i := 1 to |loc|
      invariant errorLoc == LocationUpTo(loc, i)
    {
      var e := loc[i];
      if IsNumeric(e) {
        errorLoc := errorLoc + (" " + e);
      } else {
        errorLoc := errorLoc + (" -> " + e);
      }
    }
  }

  // ---------------------------------------------------------------------
  // The lookup table `d`
  // ---------------------------------------------------------------------

  function Min(a: nat, b: nat): nat
  {
    if a <= b then a else b
  }

  /** `d[k] = v` for each pair, in order. */
  function Overlay(d: map<string, string>, names: seq<string>, values: seq<string>): map<string, string>
    requires |names| == |values|
  {
    if names == [] then d
    else Overlay(d, names[..|names| - 1], values[..|values| - 1])[names[|names| - 1] := values[|values| - 1]]
  }

  /**
    The table of supplied values: the keyword values, overlaid (when both
    lists are non-empty) by the positional names zipped with the positional
    values, the zip stopping at the shorter list.
   */
  function Table(valueDict: map<string, string>, argNames: seq<string>, argValues: seq<string>): map<string, string>
  {
    if |argNames| > 0 && |argValues| > 0 then
      var m := Min(|argNames|, |argValues|);
      Overlay(valueDict, argNames[..m], argValues[..m])
    else valueDict
  }

  lemma {:induction false} OverlayKeys(d: map<string, string>, names: seq<string>, values: seq<string>, k: string)
    requires |names| == |values|
    ensures k in Overlay(d, names, values) <==> k in d || k in names
  {
    if names != [] {
      var n := |names| - 1;
      assert names == names[..n] + [names[n]];
      OverlayKeys(d, names[..n], values[..n], k);
    }
  }

  lemma {:induction false} OverlayLastWins(d: map<string, string>, names: seq<string>, values: seq<string>, i: nat)
    requires |names| == |values| && i < |names|
    requires forall j :: i < j < |names| ==> names[j] != names[i]
    ensures names[i] in Overlay(d, names, values)
    ensures Overlay(d, names, values)[names[i]] == values[i]
  {
    var n := |names| - 1;
    if i < n {
      OverlayLastWins(d, names[..n], values[..n], i);
    }
  }

  lemma {:induction false} OverlayKeeps(d: map<string, string>, names: seq<string>, values: seq<string>, k: string)
    requires |names| == |values| && k in d && k !in names
    ensures k in Overlay(d, names, values) && Overlay(d, names, values)[k] == d[k]
  {
    if names != [] {
      var n := |names| - 1;
      assert names == names[..n] + [names[n]];
      OverlayKeeps(d, names[..n], values[..n], k);
    }
  }

  /** A name is in the table exactly when it is a keyword name or one of the zipped positional names. */
  lemma TableKeys(valueDict: map<string, string>, argNames: seq<string>, argValues: seq<string>, k: string)
    ensures var m := Min(|argNames|, |argValues|);
      k in Table(valueDict, argNames, argValues) <==> k in valueDict || k in argNames[..m]
  {
    var m := Min(|argNames|, |argValues|);
    if |argNames| > 0 && |argValues| > 0 {
      OverlayKeys(valueDict, argNames[..m], argValues[..m], k);
    } else {
      assert argNames[..m] == [];
    }
  }

  /**
    A positional value wins over a keyword value of the same name, and of
    several positional pairs with one name the last one wins.
   */
  lemma TablePositionalWins(valueDict: map<string, string>, argNames: seq<string>, argValues: seq<string>, i: nat)
    requires i < Min(|argNames|, |argValues|)
    requires forall j :: i < j < Min(|argNames|, |argValues|) ==> argNames[j] != argNames[i]
    ensures argNames[i] in Table(valueDict, argNames, argValues)
    ensures Table(valueDict, argNames, argValues)[argNames[i]] == argValues[i]
  {
    var m := Min(|argNames|, |argValues|);
    OverlayLastWins(valueDict, argNames[..m], argValues[..m], i);
  }

  /** A keyword value keeps its place unless one of the zipped positional names is the same. */
  lemma TableKeywordKept(valueDict: map<string, string>, argNames: seq<string>, argValues: seq<string>, k: string)
    requires k in valueDict && k !in argNames[..Min(|argNames|, |argValues|)]
    ensures k in Table(valueDict, argNames, argValues)
    ensures Table(valueDict, argNames, argValues)[k] == valueDict[k]
  {
    var m := Min(|argNames|, |argValues|);
    if |argNames| > 0 && |argValues| > 0 {
      OverlayKeeps(valueDict, argNames[..m], argValues[..m], k);
    }
  }

  /** Building `d`: a fresh dict, updated with the keyword values, then with the zipped pairs. */
  method BuildTable(valueDict: map<string, string>, argNames: seq<string>, argValues: seq<string>)
    returns (d: map<string, string>)
    ensures d == Table(valueDict, argNames, argValues)
  {
    d := map[];
    if |valueDict| > 0 {
      d := d + valueDict;
    }
    if |argNames| > 0 && |argValues| > 0 {
      var m := Min(|argNames|, |argValues|);
      for i := 0 to m
        invariant d == Overlay(valueDict, argNames[..i], argValues[..i])
      {
        assert argNames[..i + 1][..i] == argNames[..i];
        assert argValues[..i + 1][..i] == argValues[..i];
        d := d[argNames[i] := argValues[i]];
      }
      assert argNames[..m][..m] == argNames[..m];
    }
  }

  // ---------------------------------------------------------------------
  // The reported value
  // ---------------------------------------------------------------------

  /** Python truthiness of the caller's `value`, taken as present and non-empty. */
  predicate Truthy(value: Option<string>)
  {
    value.Some? && value.value != ""
  }

  /** The value reported for argument `name`: a truthy explicit `value`, else its table entry, else empty. */
  function Resolved(table: map<string, string>, name: string, value: Option<string>): string
  {
    if Truthy(value) then value.value
    else if name in table then table[name]
    else ""
  }

  /** The lookup loop over `d.items()` followed by the override with `value`. */
  method ResolveValue(table: map<string, string>, name: string, value: Option<string>) returns (valueStr: string)
    ensures valueStr == Resolved(table, name, value)
  {
    valueStr := "";
    if |table| > 0 {
      var keys := table.Keys;
      while keys != {}
        invariant keys <= table.Keys
        invariant valueStr == if name in table.Keys - keys then table[name] else ""
        decreases keys
      {
        var n :| n in keys;
        if n == name {
          valueStr := table[name];
        }
        keys := keys - {n};
      }
    }
    if Truthy(value) {
      valueStr := value.value;
    }
  }

  /**
    Where the reported value comes from, in terms of what the caller
    supplied: the explicit value first, then the last positional pair of that
    name, then the keyword value, else nothing.
   */
  lemma SuppliedValue(value: Option<string>, valueDict: map<string, string>, argNames: seq<string>,
                      argValues: seq<string>, name: string)
    ensures var t, m := Table(valueDict, argNames, argValues), Min(|argNames|, |argValues|);
      && (Truthy(value) ==> Resolved(t, name, value) == value.value)
      && (!Truthy(value) && name !in argNames[..m] && name in valueDict ==> Resolved(t, name, value) == valueDict[name])
      && (!Truthy(value) && name !in argNames[..m] && name !in valueDict ==> Resolved(t, name, value) == "")
  {
    var m := Min(|argNames|, |argValues|);
    TableKeys(valueDict, argNames, argValues, name);
    if name in valueDict && name !in argNames[..m] {
      TableKeywordKept(valueDict, argNames, argValues, name);
    }
  }

  /**
    Without an explicit value, the reported value is the one of the last
    zipped positional pair with that name, whatever the keyword values say.
   */
  lemma SuppliedPositionalValue(value: Option<string>, valueDict: map<string, string>, argNames: seq<string>,
                                argValues: seq<string>, i: nat)
    requires !Truthy(value) && i < Min(|argNames|, |argValues|)
    requires forall j :: i < j < Min(|argNames|, |argValues|) ==> argNames[j] != argNames[i]
    ensures Resolved(Table(valueDict, argNames, argValues), argNames[i], value) == argValues[i]
  {
    TablePositionalWins(valueDict, argNames, argValues, i);
  }

  // ---------------------------------------------------------------------
  // Lines and de-duplication
  // ---------------------------------------------------------------------

  /** One diagnostic line; the quoted value and its trailing space are left out when the value is empty. */
  function FormatLine(prog: string, loc: string, valueStr: string, msg: string): string
  {
    prog + ": error: invalid value " + (if valueStr != "" then "'" + valueStr + "' " else "")
      + "supplied for argument '" + loc + "': " + msg
  }

  /** The line formatted for one error. */
  function Line(prog: string, e: ErrorEntry, value: Option<string>, valueDict: map<string, string>,
                argNames: seq<string>, argValues: seq<string>): string
    requires |e.loc| > 0
  {
    var loc := Location(e.loc);
    FormatLine(prog, loc, Resolved(Table(valueDict, argNames, argValues), loc, value), e.msg)
  }

  /** The index of the first error whose location is empty, or `|errors|` when there is none. */
  function ReachedFrom(errors: seq<ErrorEntry>, j: nat): (k: nat)
    requires j <= |errors|
    ensures j <= k <= |errors|
    ensures forall i :: j <= i < k ==> |errors[i].loc| > 0
    ensures k < |errors| ==> |errors[k].loc| == 0
    decreases |errors| - j
  {
    if j == |errors| || |errors[j].loc| == 0 then j else ReachedFrom(errors, j + 1)
  }

  /** How many errors are formatted before `error['loc'][0]` raises `IndexError`, if it does. */
  function Reached(errors: seq<ErrorEntry>): (k: nat)
    ensures k <= |errors|
    ensures forall i :: 0 <= i < k ==> |errors[i].loc| > 0
    ensures k < |errors| ==> |errors[k].loc| == 0
  {
    ReachedFrom(errors, 0)
  }

  /**
    The lines formatted for the errors, one per error, in order, duplicates
    included, up to the first error whose location is empty.
   */
  function Lines(prog: string, errors: seq<ErrorEntry>, value: Option<string>, valueDict: map<string, string>,
                 argNames: seq<string>, argValues: seq<string>): seq<string>
  {
    var k := Reached(errors);
    seq(k, i requires 0 <= i < k => Line(prog, errors[i], value, valueDict, argNames, argValues))
  }

  /** Every error before the first empty location contributes its own line, at its own index. */
  lemma LinesAt(prog: string, errors: seq<ErrorEntry>, value: Option<string>, valueDict: map<string, string>,
                argNames: seq<string>, argValues: seq<string>, i: nat)
    requires i < Reached(errors)
    ensures var ls := Lines(prog, errors, value, valueDict, argNames, argValues);
      i < |ls| == Reached(errors) && ls[i] == Line(prog, errors[i], value, valueDict, argNames, argValues)
  {
  }

  /** The first `i` elements of `s`, keeping only the first occurrence of each. */
  function DedupUpTo(s: seq<string>, i: nat): seq<string>
    requires i <= |s|
  {
    if i == 0 then []
    else
      var p := DedupUpTo(s, i - 1);
      if s[i - 1] in p then p else p + [s[i - 1]]
  }

  /** `s` keeping only the first occurrence of each element. */
  function Dedup(s: seq<string>): seq<string>
  {
    DedupUpTo(s, |s|)
  }

  predicate NoDuplicates(s: seq<string>)
  {
    forall i, j :: 0 <= i < j < |s| ==> s[i] != s[j]
  }

  /** The index of the first occurrence of `x` in `s`. */
  function FirstIndex(s: seq<string>, x: string): (k: nat)
    requires x in s
    ensures k < |s| && s[k] == x && x !in s[..k]
  {
    if s[0] == x then 0
    else
      var k := 1 + FirstIndex(s[1..], x);
      assert s[..k] == [s[0]] + s[1..][..k - 1];
      k
  }

  lemma FirstIndexUnique(s: seq<string>, x: string, k: nat)
    requires k < |s| && s[k] == x && x !in s[..k]
    ensures FirstIndex(s, x) == k
  {
    var f := FirstIndex(s, x);
    assert forall j :: 0 <= j < k ==> s[j] == s[..k][j];
    assert forall j :: 0 <= j < f ==> s[j] == s[..f][j];
  }

  /**
    De-duplicating a prefix keeps exactly its elements, each once, ordered by
    where each first occurs.
   */
  lemma {:induction false} DedupUpToSpec(s: seq<string>, i: nat)
    requires i <= |s|
    ensures var r := DedupUpTo(s, i);
      && NoDuplicates(r)
      && (forall x :: x in r <==> x in s[..i])
      && |r| <= i
      && (forall a :: 0 <= a < |r| ==> r[a] in s && FirstIndex(s, r[a]) < i)
      && (forall a, b :: 0 <= a < b < |r| ==> FirstIndex(s, r[a]) < FirstIndex(s, r[b]))
  {
    var r := DedupUpTo(s, i);
    if i > 0 {
      DedupUpToSpec(s, i - 1);
      var p, x := DedupUpTo(s, i - 1), s[i - 1];
      assert s[..i] == s[..i - 1] + [x];
      if x !in p {
        DedupAppendOrder(s, p, i - 1);
      }
    }
  }

  /**
    Appending the element at `j`, absent from the de-duplicated prefix `p`,
    keeps the first-occurrence indices increasing and below `j + 1`.
   */
  lemma DedupAppendOrder(s: seq<string>, p: seq<string>, j: nat)
    requires j < |s| && s[j] !in p
    requires forall x :: x in p <==> x in s[..j]
    requires forall a :: 0 <= a < |p| ==> p[a] in s && FirstIndex(s, p[a]) < j
    requires forall a, b :: 0 <= a < b < |p| ==> FirstIndex(s, p[a]) < FirstIndex(s, p[b])
    ensures var r := p + [s[j]];
      && (forall a :: 0 <= a < |r| ==> r[a] in s && FirstIndex(s, r[a]) < j + 1)
      && (forall a, b :: 0 <= a < b < |r| ==> FirstIndex(s, r[a]) < FirstIndex(s, r[b]))
  {
    var r := p + [s[j]];
    FirstIndexUnique(s, s[j], j);
    forall a | 0 <= a < |r|
      ensures r[a] in s && FirstIndex(s, r[a]) < j + 1
    {
      if a < |p| {
        assert r[a] == p[a];
      }
    }
    forall a, b | 0 <= a < b < |r|
      ensures FirstIndex(s, r[a]) < FirstIndex(s, r[b])
    {
      assert r[a] == p[a];
      if b < |p| {
        assert r[b] == p[b];
      }
    }
  }

  /**
    `r` holds exactly the elements of `s`, each once, in the order in which
    they first occur in `s`.
   */
  ghost predicate FirstOccurrences(r: seq<string>, s: seq<string>)
  {
    && NoDuplicates(r)
    && (forall x :: x in r <==> x in s)
    && |r| <= |s|
    && (forall i, j :: 0 <= i < j < |r| ==> FirstIndex(s, r[i]) < FirstIndex(s, r[j]))
  }

  /** De-duplication keeps exactly the elements of `s`, each once, in the order of their first occurrences. */
  lemma DedupSpec(s: seq<string>)
    ensures FirstOccurrences(Dedup(s), s)
  {
    DedupUpToSpec(s, |s|);
    assert s[..|s|] == s;
  }

  // ---------------------------------------------------------------------
  // print_validation_error
  // ---------------------------------------------------------------------

  /** The body of the loop over `exc.errors()`, up to the line it formats. */
  method FormatError(prog: string, error: ErrorEntry, value: Option<string>, valueDict: map<string, string>,
                     argNames: seq<string>, argValues: seq<string>) returns (m: string)
    requires |error.loc| > 0
    ensures m == Line(prog, error, value, valueDict, argNames, argValues)
  {
    var errorLoc := BuildLocation(error.loc);
    var d := BuildTable(valueDict, argNames, argValues);
    var valueStr := ResolveValue(d, errorLoc, value);
    if valueStr != "" {
      valueStr := "'" + valueStr + "' ";
    }
    m := prog + ": error: invalid value " + valueStr + "supplied for argument '" + errorLoc + "': " + error.msg;
  }

  /**
    Format one line per error and print it unless the same line was already
    printed. An error with an empty location makes `error['loc'][0]` raise
    `IndexError`: the lines of the errors before it have been printed, and
    `completed` is false. The caller's arguments are values and stay as they
    were.
   */
  method PrintValidationError(errors: seq<ErrorEntry>, value: Option<string>, valueDict: map<string, string>,
                              argNames: seq<string>, argValues: seq<string>, prog: string)
    returns (printed: seq<string>, completed: bool)
    ensures completed <==> forall i :: 0 <= i < |errors| ==> |errors[i].loc| > 0
    ensures printed == Dedup(Lines(prog, errors, value, valueDict, argNames, argValues))
    ensures FirstOccurrences(printed, Lines(prog, errors, value, valueDict, argNames, argValues))
    ensures |printed| <= Reached(errors)
  {
    // `already_printed`: every line printed is appended to it, and only those
    ghost var k := Reached(errors);
    ghost var ls := Lines(prog, errors, value, valueDict, argNames, argValues);
    printed := [];
    for i := 0 to |errors|
      invariant i <= k
      invariant printed == DedupUpTo(ls, i)
    {
      if |errors[i].loc| == 0 {
        assert i == k == |ls|;
        DedupSpec(ls);
        return printed, false;
      }
      assert i < k;
      var m := FormatError(prog, errors[i], value, valueDict, argNames, argValues);
      LinesAt(prog, errors, value, valueDict, argNames, argValues, i);
      if m !in printed {
        printed := printed + [m];
      }
    }
    assert k == |errors| == |ls|;
    DedupSpec(ls);
    completed := true;
  }
}
