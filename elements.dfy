/**
 * The data both designs of the molecular-weight feature share: the atom
 * record, the four-element weight table, the four-element colour table, and
 * the plain table sum of weights over a sequence of atoms.
 */
module Elements {

  datatype Option<T> = None | Some(value: T)

  datatype Result<T, E> = Success(value: T) | Failure(error: E)

  /** One atom: its element symbol and its three coordinates. */
  datatype Atom = Atom(element: string, x: real, y: real, z: real)

  /** The display colours the two designs hand to the renderer. */
  datatype Color = White | Red | Blue | Gray | Pink

  /** The only symbols either table recognises. */
  const KnownElements: set<string> := {"H", "O", "N", "C"}

  /** Weight unit of a recognised symbol (H 1, O 16, N 14, C 12); None otherwise. */
  function KnownWeight(e: string): (w: Option<nat>)
    ensures w.Some? <==> e in KnownElements
    ensures w.Some? ==> 1 <= w.value <= 16
  {
    if e == "H" then Some(1)
    else if e == "O" then Some(16)
    else if e == "N" then Some(14)
    else if e == "C" then Some(12)
    else None
  }

  /** Display colour of a recognised symbol (H white, O red, N blue, C gray); None otherwise. */
  function KnownColor(e: string): (c: Option<Color>)
    ensures c.Some? <==> KnownWeight(e).Some?
    ensures c != Some(Pink)
  {
    if e == "H" then Some(White)
    else if e == "O" then Some(Red)
    else if e == "N" then Some(Blue)
    else if e == "C" then Some(Gray)
    else None
  }

  /** The weight table with every unrecognised symbol contributing 0. */
  function TableWeight(e: string): (w: nat)
    ensures w <= 16
    ensures w == 0 <==> e !in KnownElements
  {
    match KnownWeight(e)
    case Some(k) => k
    case None => 0
  }

  /** Sum of the table weights of the atoms. */
  function TableSum(atoms: seq<Atom>): (r: nat)
    ensures r <= 16 * |atoms|
  {
    if atoms == [] then 0 else TableWeight(atoms[0].element) + TableSum(atoms[1..])
  }

  /** Number of atoms whose symbol is `e`. */
  function Count(atoms: seq<Atom>, e: string): (n: nat)
    ensures n <= |atoms|
  {
    if atoms == [] then 0
    else (if atoms[0].element == e then 1 else 0) + Count(atoms[1..], e)
  }

  /** Appending one atom adds exactly its table weight. */
  lemma {:induction false} TableSumAppend(atoms: seq<Atom>, a: Atom)
    ensures TableSum(atoms + [a]) == TableSum(atoms) + TableWeight(a.element)
  {
    if atoms != [] {
      assert (atoms + [a])[1..] == atoms[1..] + [a];
      TableSumAppend(atoms[1..], a);
    }
  }

  /** The table sum is additive over concatenation. */
  lemma {:induction false} TableSumConcat(s: seq<Atom>, t: seq<Atom>)
    ensures TableSum(s + t) == TableSum(s) + TableSum(t)
  {
    if s == [] {
      assert s + t == t;
    } else {
      assert (s + t)[1..] == s[1..] + t;
      TableSumConcat(s[1..], t);
    }
  }

  /**
   * The table sum is the weighted count of the four known symbols: any
   * other symbol contributes nothing, however often it occurs.
   */
  lemma {:induction false} TableSumByCounts(atoms: seq<Atom>)
    ensures TableSum(atoms)
         == Count(atoms, "H") + 16 * Count(atoms, "O") + 14 * Count(atoms, "N") + 12 * Count(atoms, "C")
  {
    if atoms != [] {
      TableSumByCounts(atoms[1..]);
    }
  }

  /** The table sum does not depend on the order of the atoms. */
  lemma {:induction false} TableSumPermutation(s: seq<Atom>, t: seq<Atom>)
    requires multiset(s) == multiset(t)
    ensures TableSum(s) == TableSum(t)
    decreases |s|
  {
    if s != [] {
      var a := s[0];
      assert a in multiset(t);
      var k :| 0 <= k < |t| && t[k] == a;
      var rest := t[..k] + t[k + 1..];
      assert t == t[..k] + [a] + t[k + 1..];
      assert s == [a] + s[1..];
      calc {
        multiset(t);
        multiset(t[..k] + [a] + t[k + 1..]);
        multiset(t[..k]) + multiset{a} + multiset(t[k + 1..]);
        multiset(rest) + multiset{a};
      }
      assert multiset(s) == multiset(s[1..]) + multiset{a};
      assert multiset(rest) == multiset(t) - multiset{a};
      assert multiset(s[1..]) == multiset(s) - multiset{a};
      TableSumPermutation(s[1..], rest);
      TableSumConcat(t[..k] + [a], t[k + 1..]);
      TableSumConcat(t[..k], [a]);
      TableSumConcat(t[..k], t[k + 1..]);
    } else {
      assert |t| == |multiset(t)|;
    }
  }
}
