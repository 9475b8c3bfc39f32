# Molecular weight and visualisation, two designs

This project models the two designs of a small molecule-analysis feature and
proves what each one computes.

- **Object design** (`class_design.py`). A `Molecule` keeps a list of atom
  records and adds to it. It sums a four-entry weight table (H 1, O 16, N 14,
  C 12) over that list. It also picks a colour for each atom's scatter point
  (H white, O red, N blue, C gray).
- **Function design** (`function_design.py`). A single operation runs the
  whole analysis:
  - it reads `molecules/<name>.xyz` and skips the two header lines;
  - it splits every line after the header on whitespace into a symbol and three float
    coordinates, and gives each atom a colour (pink for an unknown symbol);
  - it sums the weights, sizes each scatter point at 100 times its weight, and
    saves the figure as `<name>.png`.

The model follows both sources as written, including one behaviour they
share. The colour loop of `visualize` and the weight loop of the function
design assign their local variable only for H, O, N and C. So:

- an atom with any other symbol reuses the colour or weight of the atom
  before it;
- when the first atom has such a symbol, the variable is read before it is
  assigned and the call fails.

Two things follow from that:

- `compute_molecular_weight` counts an unknown symbol as 0.
- The function design counts an unknown symbol as the previous atom's weight.
  `CarryOverExample` shows the gap: an H atom followed by an unknown one
  weighs 2 there, while the table sum is 1.

Neither design falls back to a default colour or weight for an unknown
symbol in these loops, and the model adds none.

Files:

- `elements.dfy`: the atom record, both tables and the plain table sum.
- `class_design.dfy`: the `Molecule` class, whose `AddAtom` method appends to
  its `atoms` field.
  - The methods are proved against specification functions. `TableSum` is the
    weight; `Scatter` is the sequence of coloured points, or the unbound-colour
    error.
- `function_design.dfy`: the function design. It has:
  - the path strings;
  - whitespace splitting;
  - line parsing, with the source's order of `IndexError` and `ValueError`;
  - the two loops, as the methods `ReadAtomLines` and `WeighAtoms`, which the
    operation calls in turn;
  - their specification functions `ParseLines` and `WeightFold`;
  - lemmas about the whole operation, specified by `Analyze`.

The environment is passed in as parameters:

- The file system is a map from path to the lines a read returns.
- `float()` is an arbitrary partial function `toFloat: string -> Option<real>`.

Line numbers in errors count from 0 over the whole file.

## Model

| member | source | states |
|---|---|---|
| Elements.KnownWeight | class_design.py:14-21 | a weight exists exactly for H, O, N, C, and every weight lies between 1 and 16 |
| Elements.KnownColor | class_design.py:31-38 | a colour exists exactly for the symbols that have a weight, and it is never the pink fallback |
| Elements.TableWeight | class_design.py:14-21 | an unknown symbol contributes 0 and only an unknown symbol does; no contribution exceeds 16 |
| Elements.TableSum | class_design.py:11-22 | the table sum of n atoms is at most 16·n |
| Elements.TableSumAppend | class_design.py:13-21 | one more atom adds exactly its table weight to the sum (the loop step) |
| Elements.TableSumConcat | class_design.py:11-22 | the sum is additive over concatenation |
| Elements.TableSumByCounts | class_design.py:11-22 | the sum is #H + 16·#O + 14·#N + 12·#C; other symbols never count |
| Elements.TableSumPermutation | class_design.py:11-22 | the molecular weight does not depend on the order atoms were added |
| ClassDesign.Molecule.constructor | class_design.py:2-3 | a new molecule has no atoms |
| ClassDesign.Molecule.AddAtom | class_design.py:5-6 | the record is appended after the existing ones, which stay unchanged, and the weight grows by exactly the new atom's table weight |
| ClassDesign.Molecule.GetAtoms | class_design.py:8-9 | returns the records in insertion order and changes nothing |
| ClassDesign.Molecule.ComputeMolecularWeight | class_design.py:11-22 | the returned weight is the table sum of the atoms (unknown symbols 0) and at most 16 per atom |
| ClassDesign.CarriedColor | class_design.py:29-38 | the loop's colour variable never holds a colour outside the table |
| ClassDesign.Scatter | class_design.py:29-39 | on success there is exactly one point per atom |
| ClassDesign.Molecule.Visualize | class_design.py:24-41 | the colour loop draws exactly the points of `Scatter`, or fails with the unbound colour as it does |
| ClassDesign.ScatterExtends | class_design.py:29-39 | once the loop has failed on a prefix, the whole call fails with that error |
| ClassDesign.CarriedColorBound | class_design.py:29-38 | once the first atom is known, the colour is bound after every later atom |
| ClassDesign.ScatterFailsIff | class_design.py:29-39 | `visualize` fails if and only if there is an atom and the first one has an unknown symbol |
| ClassDesign.ScatterMarks | class_design.py:29-39 | on success: one point per atom in order, at the atom's coordinates; a known symbol gets its table colour; an unknown one repeats the previous point's colour |
| ClassDesign.ScatterAllKnown | class_design.py:29-39 | with only H, O, N, C atoms the call succeeds and every point has its own table colour |
| FunctionDesign.InputPath | function_design.py:18 | the file read is `molecules/` + name + `.xyz`, with the name recoverable from it |
| FunctionDesign.OutputPath | function_design.py:63 | the image saved is the name + `.png` |
| FunctionDesign.InputPathInjective | function_design.py:18 | distinct names read distinct files |
| FunctionDesign.OutputPathInjective | function_design.py:63 | distinct names save distinct images |
| FunctionDesign.Split | function_design.py:27 | every token of the whitespace split is non-empty and free of whitespace |
| FunctionDesign.SplitUnsplit | function_design.py:27 | splitting words joined by single spaces gives the words back |
| FunctionDesign.SplitBefore | function_design.py:27 | text that starts with whitespace splits apart from whatever precedes it: Split(a + t) == Split(a) + Split(t) |
| FunctionDesign.SplitSpaces | function_design.py:27 | leading whitespace yields no tokens |
| FunctionDesign.SplitAround | function_design.py:27 | any non-empty run of whitespace (several spaces, tabs, a line terminator, leading or trailing) separates like one space: Split(a + ws + b) == Split(a) + Split(b) |
| FunctionDesign.ParseLine | function_design.py:27-31 | a line yields an atom if and only if it has at least four tokens and the three coordinates parse. The atom is (token 0, the three floats). The first failing step decides the error: `IndexError` exactly when a token is missing and every coordinate token present parses; otherwise `ValueError` naming the first coordinate token `toFloat` rejects |
| FunctionDesign.Body | function_design.py:26 | the first two lines are skipped and the rest kept in order (none when fewer than two lines) |
| FunctionDesign.ParseLines | function_design.py:26-31 | on success one atom per body line; any failure is an `IndexError` or `ValueError` |
| FunctionDesign.ParseLinesExtends | function_design.py:26-31 | once a line has failed, later lines do not change the outcome |
| FunctionDesign.ParseLinesSucceeds | function_design.py:26-31 | the body parses if and only if every line parses on its own |
| FunctionDesign.ParseLinesAtoms | function_design.py:26-31 | on success atom i is the atom of body line i (file line i + 2) |
| FunctionDesign.ParseLinesFirstError | function_design.py:26-31 | on failure the error is exactly that of the first body line that does not parse; every line before it parses |
| FunctionDesign.ParseLinesEach | function_design.py:26-31 | the body parses if and only if every line parses on its own, and then atom i is the atom of body line i |
| FunctionDesign.CarriedWeight | function_design.py:46-54 | the loop's weight variable, once bound, lies between 1 and 16 |
| FunctionDesign.WeightFold | function_design.py:46-56 | on success one weight is used per atom |
| FunctionDesign.WeightFoldExtends | function_design.py:46-56 | once the weight loop has failed, later atoms do not change the outcome |
| FunctionDesign.CarriedWeightBound | function_design.py:46-54 | once the first atom is known, the weight is bound after every later atom |
| FunctionDesign.WeightFoldFailsIff | function_design.py:46-56 | the weight loop fails if and only if there is an atom and the first has an unknown symbol; it then fails at atom 0 |
| FunctionDesign.WeightFoldTotal | function_design.py:46-56 | the total is the sum of the weights used |
| FunctionDesign.WeightFoldCarried | function_design.py:46-54 | the weight used for atom i is the one carried after atom i |
| FunctionDesign.WeightFoldWeights | function_design.py:46-54 | a known symbol uses its table weight; an unknown one reuses the previous atom's weight |
| FunctionDesign.WeightFoldAllKnown | function_design.py:46-56 | with only H, O, N, C atoms the loop succeeds, each weight is the table weight, and the total equals the object design's table sum |
| FunctionDesign.CarryOverExample | function_design.py:46-56 | H followed by an unknown symbol uses weights [1, 1] and totals 2, while the table sum is 1 |
| FunctionDesign.ColorOf | function_design.py:32-40 | a known symbol gets its table colour; pink is used if and only if the symbol is unknown |
| FunctionDesign.AnalyzeAndVisualizeMolecule | function_design.py:8-63 | the operation returns exactly `Analyze`: the missing-file error, the first parse error, the unbound weight, or the report |
| FunctionDesign.ReadAtomLines | function_design.py:26-43 | the first loop returns the first parse error, or the atoms of all body lines with one colour each (`ColorOf`) |
| FunctionDesign.WeighAtoms | function_design.py:46-59 | the second loop returns the unbound-weight error, or the sizes (100 × each weight used) and the total of `WeightFold` |
| FunctionDesign.AnalyzeMissingFile | function_design.py:18-21 | a missing input file fails with that path before anything else |
| FunctionDesign.AnalyzeReport | function_design.py:18-63 | on success: the file existed and the image is `<name>.png`. Atoms, colours and sizes all number (lines − 2). File line i ≥ 2 parses to atom i − 2, and each colour is `ColorOf` of its atom |
| FunctionDesign.AnalyzeSizes | function_design.py:46-59 | on success a known atom's size is 100 × its table weight, an unknown atom's size repeats the previous size, and 100 × total = sum of sizes |
| FunctionDesign.AnalyzeShortLine | function_design.py:26-31 | a body line (a blank one included) with fewer than four tokens makes the operation fail with `IndexError` or `ValueError` |
| FunctionDesign.AnalyzeUnknownFirst | function_design.py:46-56 | when all lines parse and the first symbol is unknown, the operation fails with the unbound weight at atom 0 |
| FunctionDesign.AnalyzeAllKnown | function_design.py:46-59 | when all lines parse and every symbol is known, the operation succeeds, the total is the table sum, and each size is 100 × its table weight |
| FunctionDesign.ExampleLines | function_design.py:26-31 | the lines with tokens H/O/C and coordinates `0.0`/`1.0` parse to H, O, C atoms in order |
| FunctionDesign.ExampleAtoms | function_design.py:46-56 | H, O, C use weights 1, 16, 12 and weigh 29 |

## Left out

- Rendering: the figure, the axes, `scatter`, `show` and `savefig` are not drawn. `visualize` is modelled by the points and colours it would pass to `scatter`. The function design is modelled by the atoms, colours, sizes and image name it would pass to the renderer. The edge colour, which is always black, is not recorded.
- Console output: the two `print` calls are left out.
- File reading: the file system is a parameter mapping a path to the lines a read returns. I/O errors other than a missing file are not modelled.
- Float conversion: `float()` is the parameter `toFloat`, which may reject a token. Coordinates are mathematical reals, not IEEE doubles.
- Command line: the `__main__` entry point that reads `sys.argv[1]` is left out. The molecule name is the operation's parameter.
- Split: models the parameterless `str.split` over the whitespace characters it recognises. Line terminators kept by the read count as whitespace. No other string handling is modelled.
- ClassDesign.Molecule.GetAtoms: returns the records as a value. It does not model that the source hands out its own list, so a caller's changes to that list would show up in the molecule.
- ClassDesign.Molecule.AddAtom: a record is a typed `Atom` value rather than a dictionary. The coordinates are taken as reals, whatever the caller passes.
- FunctionDesign.AnalyzeAndVisualizeMolecule: its two loops sit in two methods, `ReadAtomLines` and `WeighAtoms`, which it calls in turn. The Python keeps them inline in one function.
- FunctionDesign.ExampleLines: states the H, O, C example at the level of each line's tokens. It does not cover concrete file text.
