/**
 * The object-oriented design: a `Molecule` that accumulates atom records,
 * sums their table weights, and picks the colour of each scatter point.
 *
 * The colour loop of `visualize` assigns its local colour only for H, O, N
 * and C. An atom with any other symbol is drawn in the colour left over from
 * the previous atom, and when the first atom has such a symbol the colour is
 * still unbound, which aborts the call.
 */
module ClassDesign {
  import opened Elements

  /** One scatter call of `visualize`: the point and the colour it is drawn in. */
  datatype Mark = Mark(x: real, y: real, z: real, color: Color)

  /** Reading the loop's colour before any assignment (an unbound local). */
  datatype VisualizeError = UnboundColor

  /**
   * The value of the loop's colour variable once it has gone through
   * `atoms`: the colour of the last atom with a known symbol, or None while
   * no such atom has been seen.
   */
  function CarriedColor(atoms: seq<Atom>): (c: Option<Color>)
    ensures c != Some(Pink)
  {
    if atoms == [] then None
    else
      match KnownColor(atoms[|atoms| - 1].element)
      case Some(k) => Some(k)
      case None => CarriedColor(atoms[..|atoms| - 1])
  }

  /**
   * The scatter calls `visualize` makes for `atoms`, in order, or the error
   * that stops it.
   */
  function Scatter(atoms: seq<Atom>): (r: Result<seq<Mark>, VisualizeError>)
    ensures r.Success? ==> |r.value| == |atoms|
  {
    if atoms == [] then Success([])
    else
      var previous := Scatter(atoms[..|atoms| - 1]);
      var a, color := atoms[|atoms| - 1], CarriedColor(atoms);
      if previous.Failure? then previous
      else if color.None? then Failure(UnboundColor)
      else Success(previous.value + [Mark(a.x, a.y, a.z, color.value)])
  }

  /** An append-only list of atom records. */
  class Molecule {
    var atoms: seq<Atom>

    constructor ()
      ensures atoms == []
    {
      atoms := [];
    }

    /** Appends one record; earlier records are kept as they were. */
    method AddAtom(atomType: string, x: real, y: real, z: real)
      modifies this
      ensures atoms == old(atoms) + [Atom(atomType, x, y, z)]
      ensures TableSum(atoms) == old(TableSum(atoms)) + TableWeight(atomType)
    {
      TableSumAppend(atoms, Atom(atomType, x, y, z));
      atoms := atoms + [Atom(atomType, x, y, z)];
    }

    /** The records in insertion order; nothing changes. */
    method GetAtoms() returns (r: seq<Atom>)
      ensures r == atoms
    {
      r := atoms;
    }

    /** Sum of the table weights, unknown symbols counting 0. */
    method ComputeMolecularWeight() returns (weight: nat)
      ensures weight == TableSum(atoms)
      ensures weight <= 16 * |atoms|
    {
      weight := 0;
      for i := 0 to |atoms|
        invariant weight == TableSum(atoms[..i])
      {
        var atomType := atoms[i].element;
        if atomType == "H" {
          weight := weight + 1;
        } else if atomType == "O" {
          weight := weight + 16;
        } else if atomType == "N" {
          weight := weight + 14;
        } else if atomType == "C" {
          weight := weight + 12;
        }
        TableSumAppend(atoms[..i], atoms[i]);
        assert atoms[..i + 1] == atoms[..i] + [atoms[i]];
      }
      assert atoms[..|atoms|] == atoms;
    }

    /** The colour choice of `visualize`, returning the points it would draw. */
    method Visualize() returns (r: Result<seq<Mark>, VisualizeError>)
      ensures r == Scatter(atoms)
    {
      var color: Option<Color> := None;
      var marks: seq<Mark> := [];
      for i := 0 to |atoms|
        invariant color == CarriedColor(atoms[..i])
        invariant Scatter(atoms[..i]) == Success(marks)
      {
        var a := atoms[i];
        assert atoms[..i + 1][..i] == atoms[..i];
        if a.element == "H" {
          color := Some(White);
        } else if a.element == "O" {
          color := Some(Red);
        } else if a.element == "N" {
          color := Some(Blue);
        } else if a.element == "C" {
          color := Some(Gray);
        }
        if color.None? {
          ScatterExtends(atoms[..i + 1], atoms);
          return Failure(UnboundColor);
        }
        marks := marks + [Mark(a.x, a.y, a.z, color.value)];
      }
      assert atoms[..|atoms|] == atoms;
      r := Success(marks);
    }
  }

  /** Once the colour loop has failed, later atoms do not revive it. */
  lemma {:induction false} ScatterExtends(prefix: seq<Atom>, atoms: seq<Atom>)
    requires prefix <= atoms
    requires Scatter(prefix).Failure?
    ensures Scatter(atoms) == Scatter(prefix)
    decreases |atoms|
  {
    if |atoms| > |prefix| {
      assert prefix <= atoms[..|atoms| - 1];
      ScatterExtends(prefix, atoms[..|atoms| - 1]);
    } else {
      assert atoms == prefix;
    }
  }

  /** Once the first atom has a known symbol, the colour stays bound. */
  lemma {:induction false} CarriedColorBound(atoms: seq<Atom>, n: nat)
    requires 0 < n <= |atoms|
    requires KnownColor(atoms[0].element).Some?
    ensures CarriedColor(atoms[..n]).Some?
    decreases n
  {
    assert atoms[..n][n - 1] == atoms[n - 1];
    if n > 1 {
      CarriedColorBound(atoms, n - 1);
      assert atoms[..n][..n - 1] == atoms[..n - 1];
    }
  }

  /**
   * `visualize` fails exactly when there is an atom and the first one has a
   * symbol outside H, O, N, C.
   */
  lemma {:induction false} ScatterFailsIff(atoms: seq<Atom>)
    ensures Scatter(atoms).Failure? <==> atoms != [] && KnownColor(atoms[0].element).None?
    decreases |atoms|
  {
    if atoms != [] {
      var prefix := atoms[..|atoms| - 1];
      if |atoms| == 1 {
        assert prefix == [];
        assert atoms[|atoms| - 1] == atoms[0];
      } else {
        ScatterFailsIff(prefix);
        assert prefix[0] == atoms[0];
      }
      if KnownColor(atoms[0].element).Some? {
        CarriedColorBound(atoms, |atoms|);
        assert atoms[..|atoms|] == atoms;
        assert Scatter(prefix).Success?;
        assert CarriedColor(atoms).Some?;
        assert Scatter(atoms).Success?;
      } else {
        assert Scatter(prefix).Failure? || CarriedColor(atoms).None?;
        assert Scatter(atoms).Failure?;
      }
    }
  }

  /**
   * On success there is one point per atom, at that atom's coordinates, in
   * insertion order; a known symbol gets its table colour and an unknown one
   * repeats the colour of the point before it.
   */
  lemma {:induction false} ScatterMarks(atoms: seq<Atom>)
    requires Scatter(atoms).Success?
    ensures var marks := Scatter(atoms).value;
      && |marks| == |atoms|
      && (forall i :: 0 <= i < |atoms| ==>
            marks[i].x == atoms[i].x && marks[i].y == atoms[i].y && marks[i].z == atoms[i].z)
      && (forall i :: 0 <= i < |atoms| && KnownColor(atoms[i].element).Some? ==>
            marks[i].color == KnownColor(atoms[i].element).value)
      && (forall i :: 0 < i < |atoms| && KnownColor(atoms[i].element).None? ==>
            marks[i].color == marks[i - 1].color)
    decreases |atoms|
  {
    if atoms != [] {
      var n := |atoms| - 1;
      var prefix := atoms[..n];
      ScatterMarks(prefix);
      var marks := Scatter(atoms).value;
      assert marks[..n] == Scatter(prefix).value;
      if n > 0 && KnownColor(atoms[n].element).None? {
        assert prefix[..n - 1] == atoms[..n - 1];
        assert CarriedColor(prefix).Some?;
        assert marks[n].color == CarriedColor(prefix).value;
        assert marks[n - 1] == Scatter(prefix).value[n - 1];
      }
    }
  }

  /** With only H, O, N and C atoms every point gets its own table colour. */
  lemma {:induction false} ScatterAllKnown(atoms: seq<Atom>)
    requires forall i :: 0 <= i < |atoms| ==> atoms[i].element in KnownElements
    ensures Scatter(atoms).Success?
    ensures forall i :: 0 <= i < |atoms| ==> Scatter(atoms).value[i].color == KnownColor(atoms[i].element).value
  {
    ScatterFailsIff(atoms);
    ScatterMarks(atoms);
  }
}
