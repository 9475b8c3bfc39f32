/**
 * The function design: one operation that reads `molecules/<name>.xyz`,
 * skips its two header lines, turns every remaining line into an atom and a
 * colour, then sums the weights and sizes the scatter points.
 *
 * The weight loop assigns its local weight only for H, O, N and C. An atom
 * with any other symbol therefore adds the weight left over from the atom
 * before it, and when the first atom has such a symbol the weight is still
 * unbound, which aborts the operation.
 */
module FunctionDesign {
  import opened Elements

  /** Why the operation stops. Line numbers count from 0 over the whole file. */
  datatype Error =
    | FileNotFound(path: string)
    | IndexError(line: nat)                 // a token is missing from the line
    | ValueError(line: nat, token: string)  // a coordinate token is not a float
    | UnboundWeight(atom: nat)              // the weight is read before any assignment

  /** What the operation produces: the values handed to the renderer and the reported total. */
  datatype Report = Report(
    atoms: seq<Atom>,
    colors: seq<Color>,
    sizes: seq<nat>,
    totalWeight: nat,
    savedAs: string)

  /** The state the weight loop builds: the weight used for each atom and the running total. */
  datatype Totals = Totals(weights: seq<nat>, total: nat)

  // ---------------------------------------------------------------------
  // Paths

  function InputPath(molecule: string): (p: string)
    ensures |p| == |molecule| + 14
    ensures p[..10] == "molecules/" && p[|p| - 4..] == ".xyz"
    ensures p[10..|p| - 4] == molecule
  {
    "molecules/" + molecule + ".xyz"
  }

  function OutputPath(molecule: string): (p: string)
    ensures |p| == |molecule| + 4
    ensures p[..|molecule|] == molecule && p[|molecule|..] == ".png"
  {
    molecule + ".png"
  }

  /** Distinct molecule names read distinct files. */
  lemma {:induction false} InputPathInjective(a: string, b: string)
    ensures InputPath(a) == InputPath(b) ==> a == b
  {
  }

  /** Distinct molecule names save to distinct images. */
  lemma {:induction false} OutputPathInjective(a: string, b: string)
    ensures OutputPath(a) == OutputPath(b) ==> a == b
  {
  }

  // ---------------------------------------------------------------------
  // Splitting a line on whitespace

  /** The characters the parameterless string split treats as separators. */
  predicate IsSpace(c: char) {
    || '\t' <= c <= '\r'
    || '\U{1C}' <= c <= ' '
    || c == '\U{85}' || c == '\U{A0}' || c == '\U{1680}'
    || '\U{2000}' <= c <= '\U{200A}'
    || c == '\U{2028}' || c == '\U{2029}' || c == '\U{202F}' || c == '\U{205F}' || c == '\U{3000}'
  }

  /** A token the split can produce: non-empty and free of separators. */
  predicate IsWord(w: string) {
    |w| > 0 && forall i :: 0 <= i < |w| ==> !IsSpace(w[i])
  }

  /** Length of the run of non-separators that `s` starts with. */
  function WordLength(s: string): (n: nat)
    ensures n <= |s|
    ensures forall i :: 0 <= i < n ==> !IsSpace(s[i])
    ensures n < |s| ==> IsSpace(s[n])
  {
    if s == [] || IsSpace(s[0]) then 0 else 1 + WordLength(s[1..])
  }

  /** The maximal runs of non-separators of `s`, in order. */
  function Split(s: string): (tokens: seq<string>)
    ensures forall k :: 0 <= k < |tokens| ==> IsWord(tokens[k])
    decreases |s|
  {
    if s == [] then []
    else if IsSpace(s[0]) then Split(s[1..])
    else
      var n := WordLength(s);
      [s[..n]] + Split(s[n..])
  }

  /** Words joined by single spaces. */
  function Unsplit(words: seq<string>): string {
    if words == [] then ""
    else if |words| == 1 then words[0]
    else words[0] + " " + Unsplit(words[1..])
  }

  lemma {:induction false} WordLengthOfWord(w: string, rest: string)
    requires IsWord(w)
    requires rest == [] || IsSpace(rest[0])
    ensures WordLength(w + rest) == |w|
    decreases |w|
  {
    if |w| > 1 {
      assert (w + rest)[1..] == w[1..] + rest;
      WordLengthOfWord(w[1..], rest);
    } else {
      assert (w + rest)[1..] == rest;
    }
  }

  /** Splitting words joined by single spaces gives the words back. */
  lemma {:induction false} SplitUnsplit(words: seq<string>)
    requires forall k :: 0 <= k < |words| ==> IsWord(words[k])
    ensures Split(Unsplit(words)) == words
  {
    if |words| == 1 {
      var w := words[0];
      WordLengthOfWord(w, []);
      assert w + [] == w;
      assert w[|w|..] == [];
    } else if |words| > 1 {
      var w := words[0];
      var tail := " " + Unsplit(words[1..]);
      WordLengthOfWord(w, tail);
      assert Unsplit(words) == w + tail;
      assert (w + tail)[..|w|] == w;
      assert (w + tail)[|w|..] == tail;
      assert tail[1..] == Unsplit(words[1..]);
      SplitUnsplit(words[1..]);
    }
  }

  /** A word ends where the text ends or where whitespace starts, whatever follows. */
  lemma {:induction false} WordLengthBefore(a: string, t: string)
    requires t == [] || IsSpace(t[0])
    ensures WordLength(a + t) == WordLength(a)
    decreases |a|
  {
    if a == [] {
      assert a + t == t;
    } else if !IsSpace(a[0]) {
      assert (a + t)[1..] == a[1..] + t;
      WordLengthBefore(a[1..], t);
    }
  }

  /** Leading whitespace yields no tokens. */
  lemma {:induction false} SplitSpaces(ws: string, b: string)
    requires forall i :: 0 <= i < |ws| ==> IsSpace(ws[i])
    ensures Split(ws + b) == Split(b)
    decreases |ws|
  {
    if ws == [] {
      assert ws + b == b;
    } else {
      assert (ws + b)[0] == ws[0];
      assert (ws + b)[1..] == ws[1..] + b;
      SplitSpaces(ws[1..], b);
    }
  }

  /** Text that starts with whitespace splits apart from whatever precedes it. */
  lemma {:induction false} SplitBefore(a: string, t: string)
    requires t != [] && IsSpace(t[0])
    ensures Split(a + t) == Split(a) + Split(t)
    decreases |a|
  {
    if a == [] {
      assert a + t == t;
    } else if IsSpace(a[0]) {
      assert (a + t)[0] == a[0];
      assert (a + t)[1..] == a[1..] + t;
      SplitBefore(a[1..], t);
    } else {
      assert (a + t)[0] == a[0];
      WordLengthBefore(a, t);
      var n := WordLength(a);
      assert (a + t)[..n] == a[..n];
      assert (a + t)[n..] == a[n..] + t;
      SplitBefore(a[n..], t);
    }
  }

  /**
   * Any non-empty run of whitespace separates like a single space: the
   * tokens on either side are kept and the run itself yields none. With
   * `a` or `b` empty this covers leading and trailing whitespace, such as
   * the line terminator a read keeps.
   */
  lemma {:induction false} SplitAround(a: string, ws: string, b: string)
    requires ws != [] && forall i :: 0 <= i < |ws| ==> IsSpace(ws[i])
    ensures Split(a + ws + b) == Split(a) + Split(b)
  {
    assert a + ws + b == a + (ws + b);
    assert (ws + b)[0] == ws[0];
    SplitBefore(a, ws + b);
    SplitSpaces(ws, b);
  }

  // ---------------------------------------------------------------------
  // Parsing the atom lines

  /**
   * The atom of one line's tokens. The tokens are read in the order the
   * source reads them: the symbol, then each coordinate, which is converted
   * with `toFloat` before the next token is looked up.
   */
  function ParseLine(tokens: seq<string>, line: nat, toFloat: string -> Option<real>): (r: Result<Atom, Error>)
    ensures r.Success? <==>
      |tokens| >= 4 && toFloat(tokens[1]).Some? && toFloat(tokens[2]).Some? && toFloat(tokens[3]).Some?
    ensures r.Success? ==>
      r.value == Atom(tokens[0], toFloat(tokens[1]).value, toFloat(tokens[2]).value, toFloat(tokens[3]).value)
    ensures r.Failure? ==> r.error.IndexError? || r.error.ValueError?
    ensures r.Failure? ==> r.error.line == line
    ensures r.Failure? && r.error.ValueError? ==> 2 <= |tokens| && r.error.token in tokens[1..]
    ensures r.Failure? && r.error.IndexError? <==>
      |tokens| < 4 && forall k :: 1 <= k < |tokens| ==> toFloat(tokens[k]).Some?
    ensures r.Failure? && r.error.ValueError? ==>
      || (r.error.token == tokens[1] && toFloat(tokens[1]).None?)
      || (3 <= |tokens| && r.error.token == tokens[2] && toFloat(tokens[1]).Some? && toFloat(tokens[2]).None?)
      || (4 <= |tokens| && r.error.token == tokens[3]
          && toFloat(tokens[1]).Some? && toFloat(tokens[2]).Some? && toFloat(tokens[3]).None?)
  {
    if |tokens| < 2 then Failure(IndexError(line))
    else if toFloat(tokens[1]).None? then Failure(ValueError(line, tokens[1]))
    else if |tokens| < 3 then Failure(IndexError(line))
    else if toFloat(tokens[2]).None? then Failure(ValueError(line, tokens[2]))
    else if |tokens| < 4 then Failure(IndexError(line))
    else if toFloat(tokens[3]).None? then Failure(ValueError(line, tokens[3]))
    else Success(Atom(tokens[0], toFloat(tokens[1]).value, toFloat(tokens[2]).value, toFloat(tokens[3]).value))
  }

  /** The lines after the two header lines. */
  function Body(data: seq<string>): (body: seq<string>)
    ensures |body| == if |data| < 2 then 0 else |data| - 2
    ensures forall i :: 0 <= i < |body| ==> body[i] == data[i + 2]
  {
    if |data| < 2 then [] else data[2..]
  }

  /** The atoms of the body lines, in order, or the first line's error; body line i is file line i + 2. */
  function ParseLines(body: seq<string>, toFloat: string -> Option<real>): (r: Result<seq<Atom>, Error>)
    ensures r.Success? ==> |r.value| == |body|
    ensures r.Failure? ==> r.error.IndexError? || r.error.ValueError?
  {
    if body == [] then Success([])
    else
      var previous := ParseLines(body[..|body| - 1], toFloat);
      var parsed := ParseLine(Split(body[|body| - 1]), |body| + 1, toFloat);
      if previous.Failure? then previous
      else if parsed.Failure? then Failure(parsed.error)
      else Success(previous.value + [parsed.value])
  }

  /** Once a line has failed, later lines do not matter. */
  lemma {:induction false} ParseLinesExtends(prefix: seq<string>, body: seq<string>, toFloat: string -> Option<real>)
    requires prefix <= body
    requires ParseLines(prefix, toFloat).Failure?
    ensures ParseLines(body, toFloat) == ParseLines(prefix, toFloat)
    decreases |body|
  {
    if |body| > |prefix| {
      assert prefix <= body[..|body| - 1];
      ParseLinesExtends(prefix, body[..|body| - 1], toFloat);
    } else {
      assert body == prefix;
    }
  }

  /** Parsing succeeds exactly when every body line parses on its own. */
  lemma {:induction false} ParseLinesSucceeds(body: seq<string>, toFloat: string -> Option<real>)
    ensures ParseLines(body, toFloat).Success? <==>
      forall i :: 0 <= i < |body| ==> ParseLine(Split(body[i]), i + 2, toFloat).Success?
    decreases |body|
  {
    if body != [] {
      var n := |body| - 1;
      var prefix := body[..n];
      ParseLinesSucceeds(prefix, toFloat);
      if ParseLines(prefix, toFloat).Failure? {
        var i :| 0 <= i < n && ParseLine(Split(prefix[i]), i + 2, toFloat).Failure?;
        assert prefix[i] == body[i];
      } else if ParseLine(Split(body[n]), n + 2, toFloat).Success? {
        forall i | 0 <= i < |body|
          ensures ParseLine(Split(body[i]), i + 2, toFloat).Success?
        {
          if i < n {
            assert prefix[i] == body[i];
          }
        }
      }
    }
  }

  /**
   * On failure the error is that of the first body line that does not
   * parse: every line before it parses and the rest are never read.
   */
  lemma {:induction false} ParseLinesFirstError(body: seq<string>, toFloat: string -> Option<real>)
    requires ParseLines(body, toFloat).Failure?
    ensures exists k ::
              && 0 <= k < |body|
              && (forall j :: 0 <= j < k ==> ParseLine(Split(body[j]), j + 2, toFloat).Success?)
              && ParseLine(Split(body[k]), k + 2, toFloat) == Failure(ParseLines(body, toFloat).error)
    decreases |body|
  {
    var n := |body| - 1;
    var prefix := body[..n];
    if ParseLines(prefix, toFloat).Failure? {
      ParseLinesFirstError(prefix, toFloat);
      var k :| 0 <= k < |prefix|
        && (forall j :: 0 <= j < k ==> ParseLine(Split(prefix[j]), j + 2, toFloat).Success?)
        && ParseLine(Split(prefix[k]), k + 2, toFloat) == Failure(ParseLines(prefix, toFloat).error);
      assert forall j :: 0 <= j <= k ==> prefix[j] == body[j];
    } else {
      ParseLinesSucceeds(prefix, toFloat);
      assert forall j :: 0 <= j < n ==> prefix[j] == body[j];
      assert ParseLine(Split(body[n]), n + 2, toFloat) == Failure(ParseLines(body, toFloat).error);
    }
  }

  /** On success atom i is the atom of body line i. */
  lemma {:induction false} ParseLinesAtoms(body: seq<string>, toFloat: string -> Option<real>)
    requires ParseLines(body, toFloat).Success?
    ensures forall i :: 0 <= i < |body| ==>
      ParseLine(Split(body[i]), i + 2, toFloat) == Success(ParseLines(body, toFloat).value[i])
    decreases |body|
  {
    if body != [] {
      var n := |body| - 1;
      var prefix := body[..n];
      ParseLinesAtoms(prefix, toFloat);
      var atoms := ParseLines(body, toFloat).value;
      assert atoms[..n] == ParseLines(prefix, toFloat).value;
      forall i | 0 <= i < |body|
        ensures ParseLine(Split(body[i]), i + 2, toFloat) == Success(atoms[i])
      {
        if i < n {
          assert prefix[i] == body[i];
        }
      }
    }
  }

  /**
   * Parsing succeeds exactly when every body line parses on its own, and
   * then atom i is the atom of body line i.
   */
  lemma {:induction false} ParseLinesEach(body: seq<string>, toFloat: string -> Option<real>)
    ensures ParseLines(body, toFloat).Success? <==>
      forall i :: 0 <= i < |body| ==> ParseLine(Split(body[i]), i + 2, toFloat).Success?
    ensures ParseLines(body, toFloat).Success? ==>
      forall i :: 0 <= i < |body| ==> ParseLine(Split(body[i]), i + 2, toFloat) == Success(ParseLines(body, toFloat).value[i])
  {
    ParseLinesSucceeds(body, toFloat);
    if ParseLines(body, toFloat).Success? {
      ParseLinesAtoms(body, toFloat);
    }
  }

  // ---------------------------------------------------------------------
  // The weight loop

  /**
   * The value of the loop's weight variable once it has gone through
   * `atoms`: the weight of the last atom with a known symbol, or None while
   * no such atom has been seen.
   */
  function CarriedWeight(atoms: seq<Atom>): (w: Option<nat>)
    ensures w.Some? ==> 1 <= w.value <= 16
  {
    if atoms == [] then None
    else
      match KnownWeight(atoms[|atoms| - 1].element)
      case Some(k) => Some(k)
      case None => CarriedWeight(atoms[..|atoms| - 1])
  }

  /** The weights the loop uses and the total it reaches, or the error that stops it. */
  function WeightFold(atoms: seq<Atom>): (r: Result<Totals, Error>)
    ensures r.Success? ==> |r.value.weights| == |atoms|
  {
    if atoms == [] then Success(Totals([], 0))
    else
      var previous := WeightFold(atoms[..|atoms| - 1]);
      var weight := CarriedWeight(atoms);
      if previous.Failure? then previous
      else if weight.None? then Failure(UnboundWeight(|atoms| - 1))
      else Success(Totals(previous.value.weights + [weight.value], previous.value.total + weight.value))
  }

  function Sum(s: seq<nat>): nat {
    if s == [] then 0 else Sum(s[..|s| - 1]) + s[|s| - 1]
  }

  /** Once the weight loop has failed, later atoms do not matter. */
  lemma {:induction false} WeightFoldExtends(prefix: seq<Atom>, atoms: seq<Atom>)
    requires prefix <= atoms
    requires WeightFold(prefix).Failure?
    ensures WeightFold(atoms) == WeightFold(prefix)
    decreases |atoms|
  {
    if |atoms| > |prefix| {
      assert prefix <= atoms[..|atoms| - 1];
      WeightFoldExtends(prefix, atoms[..|atoms| - 1]);
    } else {
      assert atoms == prefix;
    }
  }

  /** Once the first atom has a known symbol, the weight stays bound. */
  lemma {:induction false} CarriedWeightBound(atoms: seq<Atom>, n: nat)
    requires 0 < n <= |atoms|
    requires KnownWeight(atoms[0].element).Some?
    ensures CarriedWeight(atoms[..n]).Some?
    decreases n
  {
    assert atoms[..n][n - 1] == atoms[n - 1];
    if n > 1 {
      CarriedWeightBound(atoms, n - 1);
      assert atoms[..n][..n - 1] == atoms[..n - 1];
    }
  }

  /**
   * The weight loop fails exactly when there is an atom and the first one
   * has a symbol outside H, O, N, C, and it then fails on that first atom.
   */
  lemma {:induction false} WeightFoldFailsIff(atoms: seq<Atom>)
    ensures WeightFold(atoms).Failure? <==> atoms != [] && KnownWeight(atoms[0].element).None?
    ensures WeightFold(atoms).Failure? ==> WeightFold(atoms).error == UnboundWeight(0)
    decreases |atoms|
  {
    if atoms != [] {
      var prefix := atoms[..|atoms| - 1];
      if |atoms| == 1 {
        assert prefix == [];
        assert atoms[|atoms| - 1] == atoms[0];
      } else {
        WeightFoldFailsIff(prefix);
        assert prefix[0] == atoms[0];
      }
      if KnownWeight(atoms[0].element).Some? {
        CarriedWeightBound(atoms, |atoms|);
        assert atoms[..|atoms|] == atoms;
        assert WeightFold(prefix).Success?;
        assert CarriedWeight(atoms).Some?;
        assert WeightFold(atoms).Success?;
      } else {
        assert WeightFold(prefix).Failure? || CarriedWeight(atoms).None?;
        assert WeightFold(atoms).Failure?;
      }
    }
  }

  /** One step of the weight loop, read off a successful fold. */
  lemma {:induction false} WeightFoldStep(atoms: seq<Atom>)
    requires atoms != [] && WeightFold(atoms).Success?
    ensures WeightFold(atoms[..|atoms| - 1]).Success?
    ensures CarriedWeight(atoms).Some?
    ensures var t := WeightFold(atoms[..|atoms| - 1]).value;
      var w := CarriedWeight(atoms).value;
      WeightFold(atoms).value == Totals(t.weights + [w], t.total + w)
  {
  }

  /** The weight loop over the first i + 1 atoms, in terms of the first i. */
  lemma {:induction false} WeightFoldPrefixStep(atoms: seq<Atom>, i: nat)
    requires i < |atoms|
    ensures CarriedWeight(atoms[..i + 1])
         == if KnownWeight(atoms[i].element).Some? then KnownWeight(atoms[i].element) else CarriedWeight(atoms[..i])
    ensures var previous, weight := WeightFold(atoms[..i]), CarriedWeight(atoms[..i + 1]);
      WeightFold(atoms[..i + 1])
      == if previous.Failure? then previous
         else if weight.None? then Failure(UnboundWeight(i))
         else Success(Totals(previous.value.weights + [weight.value], previous.value.total + weight.value))
  {
    assert atoms[..i + 1][..i] == atoms[..i];
    assert atoms[..i + 1][i] == atoms[i];
  }

  /** On success the total is the sum of the weights the loop used. */
  lemma {:induction false} WeightFoldTotal(atoms: seq<Atom>)
    requires WeightFold(atoms).Success?
    ensures WeightFold(atoms).value.total == Sum(WeightFold(atoms).value.weights)
    decreases |atoms|
  {
    if atoms != [] {
      WeightFoldStep(atoms);
      WeightFoldTotal(atoms[..|atoms| - 1]);
      var ws := WeightFold(atoms).value.weights;
      assert ws[..|ws| - 1] == WeightFold(atoms[..|atoms| - 1]).value.weights;
    }
  }

  /** On success the weight used for atom i is the one carried after atom i. */
  lemma {:induction false} WeightFoldCarried(atoms: seq<Atom>, i: nat)
    requires WeightFold(atoms).Success?
    requires i < |atoms|
    ensures CarriedWeight(atoms[..i + 1]).Some?
    ensures WeightFold(atoms).value.weights[i] == CarriedWeight(atoms[..i + 1]).value
    decreases |atoms|
  {
    var n := |atoms| - 1;
    WeightFoldStep(atoms);
    if i == n {
      assert atoms[..i + 1] == atoms;
    } else {
      WeightFoldCarried(atoms[..n], i);
      assert atoms[..n][..i + 1] == atoms[..i + 1];
    }
  }

  /**
   * On success the loop uses one weight per atom: the table weight for a
   * known symbol, the weight of the atom before for an unknown one.
   */
  lemma {:induction false} WeightFoldWeights(atoms: seq<Atom>, i: nat)
    requires WeightFold(atoms).Success?
    requires i < |atoms|
    ensures KnownWeight(atoms[i].element).Some? ==>
      WeightFold(atoms).value.weights[i] == KnownWeight(atoms[i].element).value
    ensures i > 0 && KnownWeight(atoms[i].element).None? ==>
      WeightFold(atoms).value.weights[i] == WeightFold(atoms).value.weights[i - 1]
  {
    WeightFoldCarried(atoms, i);
    assert atoms[..i + 1][i] == atoms[i];
    if i > 0 {
      WeightFoldCarried(atoms, i - 1);
      assert atoms[..i + 1][..i] == atoms[..i];
    }
  }

  /** With only H, O, N and C atoms the carried-over total is the plain table sum. */
  lemma {:induction false} WeightFoldAllKnown(atoms: seq<Atom>)
    requires forall i :: 0 <= i < |atoms| ==> atoms[i].element in KnownElements
    ensures WeightFold(atoms).Success?
    ensures WeightFold(atoms).value.total == TableSum(atoms)
    ensures forall i :: 0 <= i < |atoms| ==> WeightFold(atoms).value.weights[i] == TableWeight(atoms[i].element)
    decreases |atoms|
  {
    WeightFoldFailsIff(atoms);
    if atoms != [] {
      var n := |atoms| - 1;
      WeightFoldAllKnown(atoms[..n]);
      WeightFoldStep(atoms);
      TableSumAppend(atoms[..n], atoms[n]);
      assert atoms[..n] + [atoms[n]] == atoms;
      forall i | 0 <= i < |atoms|
        ensures WeightFold(atoms).value.weights[i] == TableWeight(atoms[i].element)
      {
        WeightFoldWeights(atoms, i);
      }
    }
  }

  /** The carry-over at work: H followed by an unknown symbol weighs 2, where the table says 1. */
  lemma {:induction false} CarryOverExample(x: real)
    ensures var atoms := [Atom("H", x, x, x), Atom("X", x, x, x)];
      && WeightFold(atoms) == Success(Totals([1, 1], 2))
      && TableSum(atoms) == 1
  {
    var h, u := Atom("H", x, x, x), Atom("X", x, x, x);
    var atoms := [h, u];
    WeightFoldFailsIff(atoms);
    WeightFoldWeights(atoms, 0);
    WeightFoldWeights(atoms, 1);
    WeightFoldTotal(atoms);
    var ws := WeightFold(atoms).value.weights;
    assert ws == [1, 1];
    assert ws[..1] == [1] && [1][..0] == [];
    assert atoms[1..] == [u] && [u][1..] == [];
  }

  // ---------------------------------------------------------------------
  // The whole operation

  /** The colour of the first loop: the table colour, pink for any other symbol. */
  function ColorOf(e: string): (c: Color)
    ensures KnownColor(e).Some? ==> c == KnownColor(e).value
    ensures c == Pink <==> e !in KnownElements
  {
    if e == "H" then White
    else if e == "O" then Red
    else if e == "N" then Blue
    else if e == "C" then Gray
    else Pink
  }

  /** The colour of each atom, in order. */
  function Colors(atoms: seq<Atom>): (cs: seq<Color>)
    ensures |cs| == |atoms|
    ensures forall i :: 0 <= i < |atoms| ==> cs[i] == ColorOf(atoms[i].element)
  {
    seq(|atoms|, i requires 0 <= i < |atoms| => ColorOf(atoms[i].element))
  }

  /** The marker size of each weight used, in order. */
  function Sizes(weights: seq<nat>): (sizes: seq<nat>)
    ensures |sizes| == |weights|
    ensures forall i :: 0 <= i < |weights| ==> sizes[i] == 100 * weights[i]
  {
    seq(|weights|, i requires 0 <= i < |weights| => 100 * weights[i])
  }

  /** What `analyze_and_visualize_molecule` does, given the readable files and a float parser. */
  function Analyze(files: map<string, seq<string>>, molecule: string, toFloat: string -> Option<real>)
    : Result<Report, Error>
  {
    var path := InputPath(molecule);
    if path !in files then Failure(FileNotFound(path))
    else
      match ParseLines(Body(files[path]), toFloat)
      case Failure(e) => Failure(e)
      case Success(atoms) =>
        match WeightFold(atoms)
        case Failure(e) => Failure(e)
        case Success(t) =>
          Success(Report(
            atoms,
            Colors(atoms),
            Sizes(t.weights),
            t.total,
            OutputPath(molecule)))
  }

  /**
   * The operation itself: the path check, then the loop over the body lines
   * that fills the atoms and colours, then the loop over the atoms that
   * fills the sizes and the total with the carried weight.
   */
  method AnalyzeAndVisualizeMolecule(files: map<string, seq<string>>, molecule: string, toFloat: string -> Option<real>)
    returns (r: Result<Report, Error>)
    ensures r == Analyze(files, molecule, toFloat)
  {
    var fileName := "molecules/" + molecule + ".xyz";
    assert fileName == InputPath(molecule);
    if fileName !in files {
      return Failure(FileNotFound(fileName));
    }
    var data := files[fileName];
    var body := if |data| < 2 then [] else data[2..];
    assert body == Body(data);

    var parsed := ReadAtomLines(body, toFloat);
    if parsed.Failure? {
      return Failure(parsed.error);
    }
    var (atoms, colors) := parsed.value;

    var weighed := WeighAtoms(atoms);
    if weighed.Failure? {
      return Failure(weighed.error);
    }
    var (sizes, totalWeight) := weighed.value;
    r := Success(Report(atoms, colors, sizes, totalWeight, molecule + ".png"));
  }

  /** The first loop: one atom and one colour per body line, or the first line's error. */
  method ReadAtomLines(body: seq<string>, toFloat: string -> Option<real>)
    returns (r: Result<(seq<Atom>, seq<Color>), Error>)
    ensures ParseLines(body, toFloat).Failure? ==> r == Failure(ParseLines(body, toFloat).error)
    ensures ParseLines(body, toFloat).Success? ==>
      var atoms := ParseLines(body, toFloat).value;
      r == Success((atoms, Colors(atoms)))
  {
    var atoms: seq<Atom> := [];
    var colors: seq<Color> := [];
    for i := 0 to |body|
      invariant ParseLines(body[..i], toFloat) == Success(atoms)
      invariant |colors| == i
      invariant forall j :: 0 <= j < i ==> colors[j] == ColorOf(atoms[j].element)
    {
      assert body[..i + 1][..i] == body[..i];
      var parsed := ParseLine(Split(body[i]), i + 2, toFloat);
      if parsed.Failure? {
        assert body[..i + 1][i] == body[i];
        ParseLinesExtends(body[..i + 1], body, toFloat);
        return Failure(parsed.error);
      }
      var atom := parsed.value.element;
      var color := Pink;
      if atom == "H" {
        color := White;
      }
      if atom == "O" {
        color := Red;
      }
      if atom == "N" {
        color := Blue;
      }
      if atom == "C" {
        color := Gray;
      }
      atoms := atoms + [parsed.value];
      colors := colors + [color];
    }
    assert body[..|body|] == body;
    assert colors == Colors(atoms);
    r := Success((atoms, colors));
  }

  /** The second loop: the marker sizes and the total with the carried weight, or the unbound weight. */
  method WeighAtoms(atoms: seq<Atom>) returns (r: Result<(seq<nat>, nat), Error>)
    ensures WeightFold(atoms).Failure? ==> r == Failure(WeightFold(atoms).error)
    ensures WeightFold(atoms).Success? ==>
      var t := WeightFold(atoms).value;
      r == Success((Sizes(t.weights), t.total))
  {
    var totalWeight: nat := 0;
    var weight: Option<nat> := None;
    var sizes: seq<nat> := [];
    ghost var weights: seq<nat> := [];
    for i := 0 to |atoms|
      invariant WeightFold(atoms[..i]) == Success(Totals(weights, totalWeight))
      invariant weight == CarriedWeight(atoms[..i])
      invariant |sizes| == |weights| == i
      invariant forall j :: 0 <= j < i ==> sizes[j] == 100 * weights[j]
    {
      ghost var before := weight;
      if atoms[i].element == "H" {
        weight := Some(1);
      }
      if atoms[i].element == "O" {
        weight := Some(16);
      }
      if atoms[i].element == "N" {
        weight := Some(14);
      }
      if atoms[i].element == "C" {
        weight := Some(12);
      }
      assert weight == if KnownWeight(atoms[i].element).Some? then KnownWeight(atoms[i].element) else before;
      WeightFoldPrefixStep(atoms, i);
      if weight.None? {
        WeightFoldExtends(atoms[..i + 1], atoms);
        return Failure(UnboundWeight(i));
      }
      assert WeightFold(atoms[..i + 1]) == Success(Totals(weights + [weight.value], totalWeight + weight.value));
      var size: nat := weight.value * 100;
      totalWeight := totalWeight + weight.value;
      weights := weights + [weight.value];
      sizes := sizes + [size];
    }
    assert atoms[..|atoms|] == atoms;
    assert sizes == Sizes(weights);
    r := Success((sizes, totalWeight));
  }

  // ---------------------------------------------------------------------
  // Properties of the whole operation

  /** A name whose input file does not exist fails before anything is parsed or saved. */
  lemma {:induction false} AnalyzeMissingFile(files: map<string, seq<string>>, molecule: string, toFloat: string -> Option<real>)
    requires "molecules/" + molecule + ".xyz" !in files
    ensures Analyze(files, molecule, toFloat) == Failure(FileNotFound("molecules/" + molecule + ".xyz"))
  {
  }

  /**
   * On success: the input file existed, the image is `<name>.png`, the two
   * header lines are never atoms, every later line gives exactly one atom,
   * one colour and one size at the same index, in line order.
   */
  lemma {:induction false} AnalyzeReport(files: map<string, seq<string>>, molecule: string, toFloat: string -> Option<real>)
    requires Analyze(files, molecule, toFloat).Success?
    ensures "molecules/" + molecule + ".xyz" in files
    ensures var rep := Analyze(files, molecule, toFloat).value;
      var data := files["molecules/" + molecule + ".xyz"];
      && rep.savedAs == molecule + ".png"
      && |rep.atoms| == |rep.colors| == |rep.sizes| == (if |data| < 2 then 0 else |data| - 2)
      && (forall i :: 2 <= i < |data| ==>
            ParseLine(Split(data[i]), i, toFloat) == Success(rep.atoms[i - 2]))
      && (forall i :: 0 <= i < |rep.atoms| ==> rep.colors[i] == ColorOf(rep.atoms[i].element))
  {
    var path := InputPath(molecule);
    var data := files[path];
    var body := Body(data);
    ParseLinesEach(body, toFloat);
    var atoms := ParseLines(body, toFloat).value;
    forall i | 2 <= i < |data|
      ensures ParseLine(Split(data[i]), i, toFloat) == Success(atoms[i - 2])
    {
      assert body[i - 2] == data[i];
    }
  }

  /**
   * On success each marker size is 100 times the weight used for its atom:
   * the table weight of a known symbol, the previous atom's weight for an
   * unknown one; the reported total is the sum of those weights.
   */
  lemma {:induction false} AnalyzeSizes(files: map<string, seq<string>>, molecule: string, toFloat: string -> Option<real>)
    requires Analyze(files, molecule, toFloat).Success?
    ensures var rep := Analyze(files, molecule, toFloat).value;
      && (forall i :: 0 <= i < |rep.atoms| && rep.atoms[i].element in KnownElements ==>
            rep.sizes[i] == 100 * TableWeight(rep.atoms[i].element))
      && (forall i :: 0 < i < |rep.atoms| && rep.atoms[i].element !in KnownElements ==>
            rep.sizes[i] == rep.sizes[i - 1])
      && 100 * rep.totalWeight == Sum(rep.sizes)
  {
    var atoms := ParseLines(Body(files[InputPath(molecule)]), toFloat).value;
    var rep := Analyze(files, molecule, toFloat).value;
    var ws := WeightFold(atoms).value.weights;
    forall i | 0 <= i < |atoms|
      ensures atoms[i].element in KnownElements ==> rep.sizes[i] == 100 * TableWeight(atoms[i].element)
      ensures i > 0 && atoms[i].element !in KnownElements ==> rep.sizes[i] == rep.sizes[i - 1]
    {
      WeightFoldWeights(atoms, i);
    }
    WeightFoldTotal(atoms);
    SumScaled(ws, rep.sizes);
  }

  lemma {:induction false} SumScaled(ws: seq<nat>, sizes: seq<nat>)
    requires |sizes| == |ws|
    requires forall i :: 0 <= i < |ws| ==> sizes[i] == 100 * ws[i]
    ensures Sum(sizes) == 100 * Sum(ws)
    decreases |ws|
  {
    if ws != [] {
      SumScaled(ws[..|ws| - 1], sizes[..|sizes| - 1]);
    }
  }

  /** A body line with fewer than four tokens (a blank line among them) makes the operation fail. */
  lemma {:induction false} AnalyzeShortLine(files: map<string, seq<string>>, molecule: string, toFloat: string -> Option<real>, i: nat)
    requires "molecules/" + molecule + ".xyz" in files
    requires 2 <= i < |files["molecules/" + molecule + ".xyz"]|
    requires |Split(files["molecules/" + molecule + ".xyz"][i])| < 4
    ensures Analyze(files, molecule, toFloat).Failure?
    ensures Analyze(files, molecule, toFloat).error.IndexError? || Analyze(files, molecule, toFloat).error.ValueError?
  {
    var data := files[InputPath(molecule)];
    var body := Body(data);
    assert body[i - 2] == data[i];
    ParseLinesEach(body, toFloat);
  }

  /** When every line parses and the first atom's symbol is unknown, the weight is unbound at atom 0. */
  lemma {:induction false} AnalyzeUnknownFirst(files: map<string, seq<string>>, molecule: string, toFloat: string -> Option<real>)
    requires "molecules/" + molecule + ".xyz" in files
    requires var body := Body(files["molecules/" + molecule + ".xyz"]);
      && ParseLines(body, toFloat).Success?
      && |body| > 0
      && ParseLines(body, toFloat).value[0].element !in KnownElements
    ensures Analyze(files, molecule, toFloat) == Failure(UnboundWeight(0))
  {
    var atoms := ParseLines(Body(files[InputPath(molecule)]), toFloat).value;
    WeightFoldFailsIff(atoms);
  }

  /**
   * When every line parses and every symbol is H, O, N or C, the operation
   * succeeds, the reported total is the table sum, and each size is 100
   * times the atom's own table weight.
   */
  lemma {:induction false} AnalyzeAllKnown(files: map<string, seq<string>>, molecule: string, toFloat: string -> Option<real>)
    requires "molecules/" + molecule + ".xyz" in files
    requires var parsed := ParseLines(Body(files["molecules/" + molecule + ".xyz"]), toFloat);
      && parsed.Success?
      && forall i :: 0 <= i < |parsed.value| ==> parsed.value[i].element in KnownElements
    ensures Analyze(files, molecule, toFloat).Success?
    ensures var rep := Analyze(files, molecule, toFloat).value;
      && rep.totalWeight == TableSum(rep.atoms)
      && forall i :: 0 <= i < |rep.atoms| ==> rep.sizes[i] == 100 * TableWeight(rep.atoms[i].element)
  {
    var atoms := ParseLines(Body(files[InputPath(molecule)]), toFloat).value;
    WeightFoldAllKnown(atoms);
  }

  /** Three atom lines with the tokens below parse to an H, an O and a C atom, in that order. */
  lemma {:induction false} ExampleLines(h: string, o: string, c: string, toFloat: string -> Option<real>)
    requires Split(h) == ["H", "0.0", "0.0", "0.0"]
    requires Split(o) == ["O", "1.0", "0.0", "0.0"]
    requires Split(c) == ["C", "0.0", "1.0", "0.0"]
    requires toFloat("0.0").Some? && toFloat("1.0").Some?
    ensures ParseLines([h, o, c], toFloat).Success?
    ensures var atoms := ParseLines([h, o, c], toFloat).value;
      atoms[0].element == "H" && atoms[1].element == "O" && atoms[2].element == "C"
  {
    ParseLinesEach([h, o, c], toFloat);
  }

  /**
   * An H, an O and a C atom, in that order, use the weights 1, 16 and 12
   * and weigh 29.
   */
  lemma {:induction false} ExampleAtoms(atoms: seq<Atom>)
    requires |atoms| == 3
    requires atoms[0].element == "H" && atoms[1].element == "O" && atoms[2].element == "C"
    ensures WeightFold(atoms) == Success(Totals([1, 16, 12], 29))
  {
    var h, o, c := atoms[0], atoms[1], atoms[2];
    assert atoms == [h, o, c];
    WeightFoldAllKnown(atoms);
    assert atoms[1..] == [o, c] && [o, c][1..] == [c] && [c][1..] == [];
    assert TableSum([c]) == 12;
    assert TableSum([o, c]) == 28;
    var ws := WeightFold(atoms).value.weights;
    assert ws[0] == 1 && ws[1] == 16 && ws[2] == 12;
    assert ws == [1, 16, 12];
  }
}
