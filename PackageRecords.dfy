/**
 * Which record types a package class defines (`WritePackageClasses`): the
 * records are selected for the package, one is kept per name and C# type,
 * and the ones that belong elsewhere are skipped.
 */
module PackageRecords {
  import opened Wrappers
  import opened Metadata

  /**
   * A record type used by a package. `name` is the package the record type
   * is declared in, `packageName` the package it was loaded for; either may
   * be absent, as may its C# type and owner.
   */
  datatype PackageRecord = PackageRecord(name: Option<string>, packageName: Option<string>,
                                         cSharpType: Option<string>, owner: Option<string>)

  /** `s ?? ""`. */
  function OrEmpty(s: Option<string>): string { s.GetOr([]) }

  /** The `Where` clause: records loaded for the package or declared in it. */
  predicate BelongsTo(r: PackageRecord, pack: Package) {
    OrEmpty(r.packageName) == pack.packageName || OrEmpty(r.name) == pack.packageName
  }

  /** Records are grouped by name and C# type, where two absent values are equal. */
  datatype RecordKey = RecordKey(name: Option<string>, cSharpType: Option<string>)

  function KeyOf(r: PackageRecord): RecordKey { RecordKey(r.name, r.cSharpType) }

  predicate HasKey(rs: seq<PackageRecord>, k: RecordKey) {
    exists j :: 0 <= j < |rs| && KeyOf(rs[j]) == k
  }

  /** The records of the package, in order. */
  function Selected(records: seq<PackageRecord>, pack: Package): (r: seq<PackageRecord>)
    ensures forall x :: x in r <==> x in records && BelongsTo(x, pack)
  {
    if records == [] then []
    else
      var init := records[..|records| - 1];
      var last := records[|records| - 1];
      assert records == init + [last];
      Selected(init, pack) + (if BelongsTo(last, pack) then [last] else [])
  }

  /** `GroupBy(key).Select(g => g.First())`: the first record of each key, in order of first appearance. */
  function FirstOfEachKey(rs: seq<PackageRecord>): seq<PackageRecord> {
    if rs == [] then []
    else
      var kept := FirstOfEachKey(rs[..|rs| - 1]);
      var last := rs[|rs| - 1];
      if HasKey(kept, KeyOf(last)) then kept else kept + [last]
  }

  predicate DistinctKeys(rs: seq<PackageRecord>) {
    forall i, j :: 0 <= i < j < |rs| ==> KeyOf(rs[i]) != KeyOf(rs[j])
  }

  /** Grouping keeps one record per key. */
  lemma {:induction false} FirstOfEachKeyDistinct(rs: seq<PackageRecord>)
    ensures DistinctKeys(FirstOfEachKey(rs))
  {
    if rs != [] {
      var init, last := rs[..|rs| - 1], rs[|rs| - 1];
      FirstOfEachKeyDistinct(init);
      var kept := FirstOfEachKey(init);
      if !HasKey(kept, KeyOf(last)) {
        var r := kept + [last];
        forall i, j | 0 <= i < j < |r|
          ensures KeyOf(r[i]) != KeyOf(r[j])
        {
          assert r[i] == kept[i];
          if j < |kept| {
            assert r[j] == kept[j];
          } else {
            assert r[j] == last;
          }
        }
      }
    }
  }

  /** Every record grouping keeps is the first record with its key. */
  lemma {:induction false} FirstOfEachKeyFirst(rs: seq<PackageRecord>, x: PackageRecord)
    requires x in FirstOfEachKey(rs)
    ensures exists i :: 0 <= i < |rs| && rs[i] == x && !HasKey(rs[..i], KeyOf(x))
  {
    var init, last := rs[..|rs| - 1], rs[|rs| - 1];
    var kept := FirstOfEachKey(init);
    if x in kept {
      FirstOfEachKeyFirst(init, x);
      var i :| 0 <= i < |init| && init[i] == x && !HasKey(init[..i], KeyOf(x));
      assert rs[..i] == init[..i];
      assert rs[i] == x;
    } else {
      assert x == last && !HasKey(kept, KeyOf(x));
      if HasKey(init, KeyOf(x)) {
        var j :| 0 <= j < |init| && KeyOf(init[j]) == KeyOf(x);
        FirstOfEachKeyComplete(init, KeyOf(x));
      }
      assert rs[..|rs| - 1] == init;
    }
  }

  /** Every key present among the records is the key of a record grouping keeps. */
  lemma {:induction false} FirstOfEachKeyComplete(rs: seq<PackageRecord>, k: RecordKey)
    ensures HasKey(rs, k) <==> HasKey(FirstOfEachKey(rs), k)
  {
    if rs != [] {
      var init, last := rs[..|rs| - 1], rs[|rs| - 1];
      FirstOfEachKeyComplete(init, k);
      var kept := FirstOfEachKey(init);
      var r := FirstOfEachKey(rs);
      assert forall m :: 0 <= m < |kept| ==> r[m] == kept[m];
      assert forall m :: 0 <= m < |init| ==> rs[m] == init[m];
      if HasKey(rs, k) && !HasKey(init, k) {
        assert KeyOf(last) == k;
        assert r[|kept|] == last;
      }
      if HasKey(r, k) && !HasKey(kept, k) {
        assert KeyOf(rs[|rs| - 1]) == k;
      }
    }
  }

  /** The records a package class iterates over. */
  function Candidates(records: seq<PackageRecord>, pack: Package): seq<PackageRecord> {
    FirstOfEachKey(Selected(records, pack))
  }

  /** `packages.Exists(p => p.PackageName.Equals(name))`: an absent name matches no package. */
  predicate InScope(packages: seq<Package>, name: Option<string>) {
    name.Some? && exists p :: p in packages && p.packageName == name.value
  }

  /**
   * Whether the package class defines a candidate record. Unless duplicates
   * are asked for, the record must have the package's owner and be declared
   * in an in-scope package; and a record declared in another in-scope
   * package is always left to that package.
   */
  predicate Defines(r: PackageRecord, pack: Package, packages: seq<Package>, duplicateOutside: bool) {
    && (duplicateOutside || (OrEmpty(r.owner) == pack.owner && InScope(packages, r.name)))
    && !(OrEmpty(r.name) != pack.packageName && InScope(packages, r.name))
  }

  /** What is written for one record: an interface and a reader unless its types are not supported. */
  datatype RecordText = RecordText(rec: PackageRecord, hasInterface: bool, hasReader: bool)

  function TextOf(r: PackageRecord, isIgnored: PackageRecord -> bool): (t: RecordText)
    ensures t.rec == r && (t.hasInterface <==> !isIgnored(r)) && (t.hasReader <==> !isIgnored(r))
  {
    RecordText(r, !isIgnored(r), !isIgnored(r))
  }

  /** The records among the first `n` candidates that are defined, in order. */
  function RecordTexts(cs: seq<PackageRecord>, n: nat, pack: Package, packages: seq<Package>, duplicateOutside: bool,
                       isIgnored: PackageRecord -> bool): seq<RecordText>
    requires n <= |cs|
  {
    if n == 0 then []
    else RecordTexts(cs, n - 1, pack, packages, duplicateOutside, isIgnored)
         + (if Defines(cs[n - 1], pack, packages, duplicateOutside) then [TextOf(cs[n - 1], isIgnored)] else [])
  }

  /** The record loop of `WritePackageClasses`, with the `continue`s of the source. */
  method WritePackageRecords(records: seq<PackageRecord>, pack: Package, packages: seq<Package>, duplicateOutside: bool,
                             isIgnored: PackageRecord -> bool) returns (texts: seq<RecordText>)
    ensures texts == RecordTexts(Candidates(records, pack), |Candidates(records, pack)|, pack, packages, duplicateOutside, isIgnored)
  {
    var cs := Candidates(records, pack);
    texts := [];
    var i := 0;
    for k := 0 to |cs|
      invariant texts == RecordTexts(cs, k, pack, packages, duplicateOutside, isIgnored)
    {
      var rec := cs[k];
      if !duplicateOutside {
        if OrEmpty(rec.owner) != pack.owner {
          continue;
        }
        if !InScope(packages, rec.name) {
          continue;
        }
      }
      if OrEmpty(rec.name) != pack.packageName && InScope(packages, rec.name) {
        i := i + 1;
        continue;
      }
      texts := texts + [TextOf(rec, isIgnored)];
    }
  }

  /** A record is written for the first `n` candidates exactly when it is one of them and is defined. */
  lemma {:induction false} RecordTextsMembers(cs: seq<PackageRecord>, n: nat, pack: Package, packages: seq<Package>,
                                              duplicateOutside: bool, isIgnored: PackageRecord -> bool, t: RecordText)
    requires n <= |cs|
    ensures t in RecordTexts(cs, n, pack, packages, duplicateOutside, isIgnored) <==>
      exists k :: 0 <= k < n && t == TextOf(cs[k], isIgnored) && Defines(cs[k], pack, packages, duplicateOutside)
  {
    if n > 0 {
      RecordTextsMembers(cs, n - 1, pack, packages, duplicateOutside, isIgnored, t);
      if exists k :: 0 <= k < n && t == TextOf(cs[k], isIgnored) && Defines(cs[k], pack, packages, duplicateOutside) {
        var k :| 0 <= k < n && t == TextOf(cs[k], isIgnored) && Defines(cs[k], pack, packages, duplicateOutside);
        if k < n - 1 {
          assert t in RecordTexts(cs, n - 1, pack, packages, duplicateOutside, isIgnored);
        }
      }
    }
  }

  /**
   * The records a package class defines are exactly the records of the
   * package that are defined for it, each the first of its name and C# type.
   */
  lemma PackageRecordsDefined(records: seq<PackageRecord>, pack: Package, packages: seq<Package>, duplicateOutside: bool,
                              isIgnored: PackageRecord -> bool, r: PackageRecord)
    ensures var cs := Candidates(records, pack);
      var texts := RecordTexts(cs, |cs|, pack, packages, duplicateOutside, isIgnored);
      TextOf(r, isIgnored) in texts <==> r in cs && Defines(r, pack, packages, duplicateOutside)
    ensures r in Candidates(records, pack) ==> r in records && BelongsTo(r, pack)
  {
    var cs := Candidates(records, pack);
    RecordTextsMembers(cs, |cs|, pack, packages, duplicateOutside, isIgnored, TextOf(r, isIgnored));
    if r in cs {
      FirstOfEachKeyFirst(Selected(records, pack), r);
    }
  }

  predicate DistinctTextKeys(texts: seq<RecordText>) {
    forall i, j :: 0 <= i < j < |texts| ==> KeyOf(texts[i].rec) != KeyOf(texts[j].rec)
  }

  /** No two records a package class defines share a name and C# type. */
  lemma {:induction false} RecordTextsDistinct(cs: seq<PackageRecord>, n: nat, pack: Package, packages: seq<Package>,
                                               duplicateOutside: bool, isIgnored: PackageRecord -> bool)
    requires n <= |cs| && DistinctKeys(cs)
    ensures DistinctTextKeys(RecordTexts(cs, n, pack, packages, duplicateOutside, isIgnored))
  {
    if n > 0 {
      RecordTextsDistinct(cs, n - 1, pack, packages, duplicateOutside, isIgnored);
      var prev := RecordTexts(cs, n - 1, pack, packages, duplicateOutside, isIgnored);
      if Defines(cs[n - 1], pack, packages, duplicateOutside) {
        var texts := prev + [TextOf(cs[n - 1], isIgnored)];
        assert RecordTexts(cs, n, pack, packages, duplicateOutside, isIgnored) == texts;
        forall i, j | 0 <= i < j < |texts|
          ensures KeyOf(texts[i].rec) != KeyOf(texts[j].rec)
        {
          assert texts[i] == prev[i];
          if j == |prev| {
            RecordTextsMembers(cs, n - 1, pack, packages, duplicateOutside, isIgnored, prev[i]);
            assert prev[i] in prev;
            var k :| 0 <= k < n - 1 && prev[i] == TextOf(cs[k], isIgnored) && Defines(cs[k], pack, packages, duplicateOutside);
            assert texts[i].rec == cs[k] && texts[j].rec == cs[n - 1];
            assert KeyOf(cs[k]) != KeyOf(cs[n - 1]);
          } else {
            assert texts[j] == prev[j];
          }
        }
      } else {
        assert RecordTexts(cs, n, pack, packages, duplicateOutside, isIgnored) == prev;
      }
    }
  }

  lemma DefinedRecordsDistinct(records: seq<PackageRecord>, pack: Package, packages: seq<Package>, duplicateOutside: bool,
                               isIgnored: PackageRecord -> bool)
    ensures DistinctTextKeys(RecordTexts(Candidates(records, pack), |Candidates(records, pack)|, pack, packages,
                                         duplicateOutside, isIgnored))
  {
    var cs := Candidates(records, pack);
    FirstOfEachKeyDistinct(Selected(records, pack));
    RecordTextsDistinct(cs, |cs|, pack, packages, duplicateOutside, isIgnored);
  }

  /**
   * A record declared in an in-scope package is defined by no other
   * package: of two packages with different names, at most one defines it.
   */
  lemma DeclaringPackageOnly(r: PackageRecord, pack1: Package, pack2: Package, packages: seq<Package>, duplicateOutside: bool)
    requires InScope(packages, r.name) && pack1.packageName != pack2.packageName
    ensures !(Defines(r, pack1, packages, duplicateOutside) && Defines(r, pack2, packages, duplicateOutside))
    ensures Defines(r, pack1, packages, duplicateOutside) ==> r.name == Some(pack1.packageName)
  {
  }

  /**
   * Without the duplicate option a package class defines only records
   * declared in that very package and owned by its owner.
   */
  lemma OwnRecordsOnly(r: PackageRecord, pack: Package, packages: seq<Package>)
    requires Defines(r, pack, packages, false)
    ensures r.name == Some(pack.packageName) && OrEmpty(r.owner) == pack.owner
  {
  }
}
