/**
 * The generic type parameters of a generated method (one per distinct C#
 * row type of its OUT REF CURSOR arguments) and their `where` constraints.
 */
module Generics {
  import opened Wrappers
  import opened Metadata

  /**
   * `GenericType`: the C# row type of a cursor, the package class that holds
   * its interface (when known) and whether the cursor is weakly typed.
   */
  datatype GenericType = GenericType(packageTypeName: Option<string>, typeName: string, weaklyTyped: bool)

  /** Only top-level OUT REF CURSOR arguments give a generic type. */
  predicate IsCursorOut(a: Argument) {
    a.dataLevel == 0 && a.dataType == RefCursor && a.mode == Out
  }

  /** `String.IsNullOrWhiteSpace` on the filter. */
  predicate IsBlank(s: string) { forall i :: 0 <= i < |s| ==> s[i] == ' ' || '\t' <= s[i] <= '\r' }

  /**
   * The package class of a cursor's row type: the C# name of the next
   * argument's type name, when there is one, no filter is set and it is not
   * the cursor's own package name.
   */
  function PackageTypeName(args: seq<Argument>, i: nat, filter: string, tr: Translator): (r: Option<string>)
    requires i < |args|
    ensures r.Some? <==> i + 1 < |args| && !IsNullOrEmpty(args[i + 1].typeName) && IsBlank(filter)
                                       && args[i].packageName != args[i + 1].typeName.value
  {
    match NextArgument(args, i)
    case Some(next) =>
      if !IsNullOrEmpty(next.typeName) && IsBlank(filter) && args[i].packageName != next.typeName.value
      then Some(tr.csharpName(next.typeName.value, false))
      else None
    case None => None
  }

  /**
   * The generic type a cursor argument stands for. The cursor is weakly
   * typed when nothing follows it at a deeper data level (no record fields).
   */
  function CursorGenericType(args: seq<Argument>, i: nat, filter: string, tr: Translator): (g: GenericType)
    requires i < |args|
    ensures g.typeName == tr.subtype(tr.ArgType(args[i], false), false)
    ensures g.weaklyTyped <==> i + 1 == |args| || args[i + 1].dataLevel == args[i].dataLevel
  {
    var next := NextArgument(args, i);
    GenericType(PackageTypeName(args, i, filter, tr), tr.subtype(tr.ArgType(args[i], false), false),
                next.None? || next.value.dataLevel == args[i].dataLevel)
  }

  predicate HasTypeName(gs: seq<GenericType>, t: string) {
    exists j :: 0 <= j < |gs| && gs[j].typeName == t
  }

  /** The generic types collected from the first `k` arguments. */
  function GenericTypes(args: seq<Argument>, k: nat, filter: string, tr: Translator): seq<GenericType>
    requires k <= |args|
  {
    if k == 0 then []
    else
      var gs := GenericTypes(args, k - 1, filter, tr);
      var g := CursorGenericType(args, k - 1, filter, tr);
      if IsCursorOut(args[k - 1]) && !HasTypeName(gs, g.typeName) then gs + [g] else gs
  }

  /** `GetMethodGenericTypes`. */
  method GetMethodGenericTypes(args: seq<Argument>, filter: string, tr: Translator) returns (genericTypes: seq<GenericType>)
    ensures genericTypes == GenericTypes(args, |args|, filter, tr)
  {
    genericTypes := [];
    for k := 0 to |args|
      invariant genericTypes == GenericTypes(args, k, filter, tr)
    {
      var arg := args[k];
      if arg.dataLevel != 0 {
        continue;
      }
      if arg.dataType == RefCursor && arg.mode == Out {
        var cSharpType := tr.ArgType(arg, false);
        var packageTypeName := PackageTypeName(args, k, filter, tr);
        var typeName := tr.subtype(cSharpType, false);
        var exists_ := false;
        for j := 0 to |genericTypes|
          invariant exists_ <==> exists m :: 0 <= m < j && genericTypes[m].typeName == typeName
        {
          if genericTypes[j].typeName == typeName {
            exists_ := true;
          }
        }
        if !exists_ {
          var next := NextArgument(args, k);
          genericTypes := genericTypes + [GenericType(packageTypeName, typeName,
                                                      next.None? || next.value.dataLevel == arg.dataLevel)];
        }
      }
    }
  }

  predicate DistinctTypeNames(gs: seq<GenericType>) {
    forall i, j :: 0 <= i < j < |gs| ==> gs[i].typeName != gs[j].typeName
  }

  /** No two generic types of a method share a type name. */
  lemma {:induction false} GenericTypesDistinct(args: seq<Argument>, k: nat, filter: string, tr: Translator)
    requires k <= |args|
    ensures DistinctTypeNames(GenericTypes(args, k, filter, tr))
  {
    if k > 0 {
      GenericTypesDistinct(args, k - 1, filter, tr);
      var gs := GenericTypes(args, k - 1, filter, tr);
      var g := CursorGenericType(args, k - 1, filter, tr);
      if IsCursorOut(args[k - 1]) && !HasTypeName(gs, g.typeName) {
        var r := gs + [g];
        assert GenericTypes(args, k, filter, tr) == r;
        forall i, j | 0 <= i < j < |r|
          ensures r[i].typeName != r[j].typeName
        {
          assert r[i] == gs[i];
          if j < |gs| {
            assert r[j] == gs[j];
            assert gs[i].typeName != gs[j].typeName;
          } else {
            assert r[j] == g;
            assert !(0 <= i < |gs| && gs[i].typeName == g.typeName);
          }
        }
      }
    }
  }

  /**
   * Every generic type comes from an OUT cursor argument among the first `k`,
   * the first one with that row type.
   */
  lemma {:induction false} GenericTypesSound(args: seq<Argument>, k: nat, filter: string, tr: Translator, n: nat)
    requires k <= |args|
    requires n < |GenericTypes(args, k, filter, tr)|
    ensures exists i :: (0 <= i < k && IsCursorOut(args[i])
      && GenericTypes(args, k, filter, tr)[n] == CursorGenericType(args, i, filter, tr)
      && forall j :: 0 <= j < i && IsCursorOut(args[j]) ==>
           CursorGenericType(args, j, filter, tr).typeName != GenericTypes(args, k, filter, tr)[n].typeName)
  {
    var gs := GenericTypes(args, k - 1, filter, tr);
    var g := CursorGenericType(args, k - 1, filter, tr);
    if n < |gs| {
      GenericTypesSound(args, k - 1, filter, tr, n);
    } else {
      assert IsCursorOut(args[k - 1]) && !HasTypeName(gs, g.typeName);
      forall j | 0 <= j < k - 1 && IsCursorOut(args[j])
        ensures CursorGenericType(args, j, filter, tr).typeName != g.typeName
      {
        GenericTypesComplete(args, k - 1, filter, tr, j);
      }
    }
  }

  /** Every OUT cursor argument among the first `k` has its row type among the generic types. */
  lemma {:induction false} GenericTypesComplete(args: seq<Argument>, k: nat, filter: string, tr: Translator, i: nat)
    requires i < k <= |args| && IsCursorOut(args[i])
    ensures HasTypeName(GenericTypes(args, k, filter, tr), CursorGenericType(args, i, filter, tr).typeName)
  {
    var gs := GenericTypes(args, k - 1, filter, tr);
    var t := CursorGenericType(args, i, filter, tr).typeName;
    if i < k - 1 {
      GenericTypesComplete(args, k - 1, filter, tr, i);
      var j :| 0 <= j < |gs| && gs[j].typeName == t;
      assert GenericTypes(args, k, filter, tr)[j] == gs[j];
    } else if HasTypeName(gs, t) {
      var j :| 0 <= j < |gs| && gs[j].typeName == t;
      assert GenericTypes(args, k, filter, tr)[j] == gs[j];
    } else {
      assert GenericTypes(args, k, filter, tr)[|gs|].typeName == t;
    }
  }

  /** A method has generic types exactly when it has an OUT REF CURSOR argument. */
  lemma GenericsIffCursorOut(args: seq<Argument>, filter: string, tr: Translator)
    ensures GenericTypes(args, |args|, filter, tr) != [] <==> exists i :: 0 <= i < |args| && IsCursorOut(args[i])
  {
    if GenericTypes(args, |args|, filter, tr) != [] {
      GenericTypesSound(args, |args|, filter, tr, 0);
    }
    if exists i :: 0 <= i < |args| && IsCursorOut(args[i]) {
      var i :| 0 <= i < |args| && IsCursorOut(args[i]);
      GenericTypesComplete(args, |args|, filter, tr, i);
    }
  }

  // ---------------------------------------------------------------------------
  // GenerateMethodConstraintsCode

  /**
   * `where T : class[, I], new()`: the interface `I` is named only for a
   * strongly typed cursor mapped statically.
   */
  datatype Constraint = Constraint(typeName: string, interfaceName: Option<string>)

  /** `Substring(prefixLength)` needs the type name to be at least that long. */
  predicate ConstraintDefined(g: GenericType, dynamicMapping: bool, prefixLength: nat) {
    dynamicMapping || g.weaklyTyped || prefixLength <= |g.typeName|
  }

  /**
   * The interface of a statically mapped, strongly typed row type: `I` and
   * the type name without its generic prefix, qualified by the package
   * class when that is known.
   */
  function InterfaceName(g: GenericType, prefixLength: nat): (r: string)
    requires prefixLength <= |g.typeName|
    ensures g.packageTypeName.None? ==> r == ['I'] + g.typeName[prefixLength..]
    ensures g.packageTypeName.Some? ==> r == g.packageTypeName.value + ['.', 'I'] + g.typeName[prefixLength..]
  {
    (if g.packageTypeName.None? then [] else g.packageTypeName.value + ['.']) + ['I'] + g.typeName[prefixLength..]
  }

  function ConstraintOf(g: GenericType, dynamicMapping: bool, prefixLength: nat): Constraint
    requires ConstraintDefined(g, dynamicMapping, prefixLength)
  {
    Constraint(g.typeName, if dynamicMapping || g.weaklyTyped then None else Some(InterfaceName(g, prefixLength)))
  }

  /** `GenerateMethodConstraintsCode`: one constraint per generic type, in order. */
  method GenerateMethodConstraints(genericTypes: seq<GenericType>, dynamicMapping: bool, prefixLength: nat)
    returns (constraints: seq<Constraint>)
    requires forall i :: 0 <= i < |genericTypes| ==> ConstraintDefined(genericTypes[i], dynamicMapping, prefixLength)
    ensures |constraints| == |genericTypes|
    ensures forall i :: 0 <= i < |genericTypes| ==> constraints[i].typeName == genericTypes[i].typeName
    ensures forall i :: 0 <= i < |genericTypes| ==>
      (constraints[i].interfaceName.Some? <==> !dynamicMapping && !genericTypes[i].weaklyTyped)
    ensures forall i :: 0 <= i < |genericTypes| && !dynamicMapping && !genericTypes[i].weaklyTyped ==>
      constraints[i].interfaceName.Some? && prefixLength <= |genericTypes[i].typeName| &&
      constraints[i].interfaceName.value == InterfaceName(genericTypes[i], prefixLength)
  {
    constraints := [];
    for k := 0 to |genericTypes|
      invariant |constraints| == k
      invariant forall i :: 0 <= i < k ==> constraints[i] == ConstraintOf(genericTypes[i], dynamicMapping, prefixLength)
    {
      var gt := genericTypes[k];
      var iface: Option<string> := None;
      if !(dynamicMapping || gt.weaklyTyped) {
        iface := Some((if gt.packageTypeName.None? then [] else gt.packageTypeName.value + ['.'])
                      + ['I'] + gt.typeName[prefixLength..]);
      }
      constraints := constraints + [Constraint(gt.typeName, iface)];
    }
  }
}
