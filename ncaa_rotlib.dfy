/** NCAARotamerLibrarySpecification
    (core/chemical/rotamers/NCAARotamerLibrarySpecification.hh): the settings that tell the
    rotamer-library builder to read a noncanonical amino acid's rotamer library from a file,
    and the backbone torsions that library depends on. */
module Rotamers {
  import opened Wrappers

  /** Backbone torsion indices are 1-based and none is listed twice. */
  predicate TorsionIndicesWellFormed(indices: seq<nat>)
  {
    && (forall k :: 0 <= k < |indices| ==> indices[k] != 0)
    && (forall j, k :: 0 <= j < k < |indices| ==> indices[j] != indices[k])
  }

  /** The list after adding `index`: index 0 and an index already listed are refused;
      otherwise the index is added at the end. */
  function WithTorsionIndex(indices: seq<nat>, index: nat): (r: Result<seq<nat>>)
    ensures r.Fatal? <==> index == 0 || index in indices
    ensures r.Ok? ==> |r.value| == |indices| + 1 && r.value[..|indices|] == indices && r.value[|indices|] == index
    ensures r.Ok? ==> index in r.value && forall i :: i in r.value <==> i in indices || i == index
  {
    if index == 0 then Fatal("backbone torsion index 0")
    else if index in indices then Fatal("duplicate backbone torsion index")
    else Ok(indices + [index])
  }

  /** Adding an index keeps the list well formed. */
  lemma WithTorsionIndexKeepsWellFormed(indices: seq<nat>, index: nat)
    requires TorsionIndicesWellFormed(indices)
    ensures WithTorsionIndex(indices, index).Ok? ==> TorsionIndicesWellFormed(WithTorsionIndex(indices, index).value)
  {
    var r := WithTorsionIndex(indices, index);
    if r.Ok? {
      var s := r.value;
      forall j, k | 0 <= j < k < |s|
        ensures s[j] != s[k]
      {
        if k == |indices| {
          assert s[j] == indices[j] && s[k] == index;
        }
      }
    }
  }

  class NCAARotamerLibrarySpecification {
    var ncaaRotlibPath: string
    var ncaaRotlibNBinsPerRot: seq<nat>
    var semirotamericNcaaRotlib: bool
    var nrchiSymmetric: bool
    var nrchiStartAngle: real
    var rotamerBbTorsionIndices: seq<nat>

    ghost predicate Valid()
      reads this
    {
      TorsionIndicesWellFormed(rotamerBbTorsionIndices)
    }

    /** A specification reading the library at `path`; its vectors start empty. */
    constructor (path: string)
      ensures Valid()
      ensures ncaaRotlibPath == path && ncaaRotlibNBinsPerRot == [] && rotamerBbTorsionIndices == []
    {
      ncaaRotlibPath := path;
      ncaaRotlibNBinsPerRot := [];
      rotamerBbTorsionIndices := [];
    }

    /** Sets the path to the library; `ncaa_rotlib_path()` then returns it. */
    method SetNcaaRotlibPath(path: string)
      modifies this`ncaaRotlibPath
      ensures ncaaRotlibPath == path
    {
      ncaaRotlibPath := path;
    }

    /** Sets the number of rotamer bins of each rotatable bond; the number of rotameric bins
        becomes its length. */
    method SetNcaaRotlibNBinPerRot(nBinsPerRot: seq<nat>)
      modifies this`ncaaRotlibNBinsPerRot
      ensures ncaaRotlibNBinsPerRot == nBinsPerRot && NcaaRotlibNRotamericBins() == |nBinsPerRot|
    {
      ncaaRotlibNBinsPerRot := nBinsPerRot;
    }

    method SetSemirotamericNcaaRotlib(setting: bool)
      modifies this`semirotamericNcaaRotlib
      ensures semirotamericNcaaRotlib == setting
    {
      semirotamericNcaaRotlib := setting;
    }

    method SetNrchiSymmetric(setting: bool)
      modifies this`nrchiSymmetric
      ensures nrchiSymmetric == setting
    {
      nrchiSymmetric := setting;
    }

    method SetNrchiStartAngle(setting: real)
      modifies this`nrchiStartAngle
      ensures nrchiStartAngle == setting
    {
      nrchiStartAngle := setting;
    }

    /** The number of rotatable bonds the library describes: one per entry of the bins list. */
    function NcaaRotlibNRotamericBins(): (n: nat)
      reads this`ncaaRotlibNBinsPerRot
      ensures n == |ncaaRotlibNBinsPerRot|
    {
      |ncaaRotlibNBinsPerRot|
    }

    /** Adds a backbone torsion index the library depends on; index 0 and an index already
        listed stop the run. */
    method AddRotamerBbTorsionIndex(index: nat) returns (r: Result<()>)
      requires Valid()
      modifies this`rotamerBbTorsionIndices
      ensures Valid()
      ensures var w := WithTorsionIndex(old(rotamerBbTorsionIndices), index);
        && (r.Ok? <==> w.Ok?)
        && rotamerBbTorsionIndices == if w.Ok? then w.value else old(rotamerBbTorsionIndices)
    {
      WithTorsionIndexKeepsWellFormed(rotamerBbTorsionIndices, index);
      var w := WithTorsionIndex(rotamerBbTorsionIndices, index);
      match w
      case Fatal(m) => r := Fatal(m);
      case Ok(indices) =>
        rotamerBbTorsionIndices := indices;
        r := Ok(());
    }

    /** Empties the list of backbone torsion indices. */
    method ClearRotamerBbTorsionIndices()
      modifies this`rotamerBbTorsionIndices
      ensures Valid() && rotamerBbTorsionIndices == []
    {
      rotamerBbTorsionIndices := [];
    }
  }
}
