# MinMaxMeshReader in Dafny

MinMaxMeshReader reads a surface mesh given as text (a header that declares
`NPoints = N`, one separator line, then N records `index x y z`). It finds
eight extremal vertices ("landmarks") and writes two files:

- an attribute file: three header lines, then one label per vertex;
- a points file: the positions of six of the landmarks.

The program keeps its state in globals: the vertex count, the vertex list,
and a vertex and an index for each landmark. It runs four procedures in
turn. The model keeps that shape.

- `MinMaxMeshReader.MeshState` is a class holding those globals. Its
  constructor is the zero initialisation of static storage.
- Its methods `ReadMesh`, `ComputeMinMax` and `Run` update the fields in
  place, with frames that name exactly the fields they write.
  `WriteAttributeFile` and `WritePointsFile` read the fields and return the
  file contents.
- Every landmark scan is specified once, in `ExtremaAnalyzer`, as a pure
  fold `Pick(vertices, rule)`. A rule is an axis, a direction (lowest or
  highest) and a side (all vertices, or strictly left or right of a centre
  x).
- `Pick` returns the index the scan ends with. It returns `None` when no
  vertex ever beat the ±1000.0 sentinel on the landmark's side.
- `Chosen(vertices, rule, initial)` is the landmark the global then holds:
  the picked vertex and index, or `initial` unchanged. So a landmark that is
  never updated keeps index 0 and the origin after the constructor. It keeps
  whatever it held before on a later call.
- The scan loops are proved against `Pick`, `Best` (the running value) and
  `Chosen`. `Pick` is proved equal to an independent definition: the first
  occurrence of a strictly best candidate.
- The label chain of the attribute file is the pure function
  `ReportWriter.Label`. The header count uses `atoi` (`Numerals.Atoi`). The
  output stream's integer text is `Numerals.DecimalString`. Round-trip
  lemmas connect the two.

Modules: `Options`, `Geometry` (vertex and landmark values), `Numerals`,
`MeshReader` (header scan), `ExtremaAnalyzer` (scans), `ReportWriter`
(outputs), `MinMaxMeshReader` (the program state), `Scenarios` (a worked
three-vertex mesh).

The code's two passes of `ComputeMinMax` are modelled as two methods,
`ScanWholeMesh` and `ScanHalves`, which `ComputeMinMax` calls in turn. The
centre x is passed from the first to the second, as the local `XCenter` is
in the code.

In these cases the model follows the code as written:

- A missing count line makes the code loop forever. A count line without a
  blank is undefined behaviour. Both are excluded by the `Readable`
  precondition, not turned into a format error.
- The header scan accepts exactly the prefixes `NPoints =` and `NPoints=`.
  Other spacing around `=` is not recognised.
- The count is read from the line's last blank on. So in "NPoints =5" it is
  read from " =5". `atoi` stops at the '=' and finds no digits, so that line
  declares 0 points (`MeshReader.GluedCountLineReadsZero`).
- An empty mesh is not rejected. Every landmark keeps its zero-initialised
  value, so the points file holds the origin six times.
- In the three-vertex example (-1,0,0), (1,0,0), (0,-1,5), Inferior
  (maximum y) is vertex 0. The y = 0 tie between vertices 0 and 1 goes to
  the first one.
- "Left.x is at most every x" holds only when some vertex has x < 1000.
  `LeftIsFirstLowestX` states the exact condition.

## Model

| member | source | states |
|---|---|---|
| `Numerals.NatString` | main.cxx:148 | the decimal text of a natural number is non-empty, all digits, and has no leading zero |
| `Numerals.DecimalString` | main.cxx:148 | an integer's text starts with no blank; it is all digits exactly for non-negative values and starts with '-' exactly for negative ones |
| `Numerals.LeadingDigits` | main.cxx:52 | the digits `atoi` reads are a prefix of its input, and the character after them (if any) is not a digit |
| `Numerals.SkipSpaces` | main.cxx:52 | after `atoi`'s white-space skip the next character is not white space |
| `Numerals.NatStringValue` | main.cxx:148 | the value of a number's decimal digits is the number |
| `Numerals.SignedValueOfDecimal` | main.cxx:52 | the sign-and-digits reading of an integer's text, followed by non-digit text, is the integer |
| `Numerals.AtoiReadsDecimalString` | main.cxx:52 | `atoi` returns n for any white space, then n's decimal text, then non-digit text |
| `Numerals.AtoiWithoutNumeral` | main.cxx:52 | `atoi` returns 0 when, after white space, the text starts with neither a sign nor a digit |
| `Numerals.AtoiOfDecimal` | main.cxx:52 | `atoi` inverts the integer text the output stream writes |
| `MeshReader.CountLineIndex` | main.cxx:50-51 | the header scan stops at the first line with prefix "NPoints =" or "NPoints="; no line has one exactly when the scan never stops |
| `MeshReader.FindCountLine` | main.cxx:50-51 | the scanning loop stops at a count line, and no earlier line is one |
| `MeshReader.LastIndexOf` | main.cxx:52 | `strrchr` finds an occurrence with none after it, and finds nothing exactly when the character is absent |
| `MeshReader.LastBlankBeforeTail` | main.cxx:52 | the last blank of a line is the one before a blank-free tail |
| `MeshReader.LineCountReadsDecimal` | main.cxx:52 | the count is the integer after the line's last blank, whatever non-digit text follows it |
| `MeshReader.FirstCountLine` | main.cxx:50-51 | non-count lines before a count line are skipped, and lines after it are not looked at |
| `MeshReader.WrittenCountLine` | main.cxx:50-52 | "NPoints = n" is a count line, contains a blank, and declares n |
| `MeshReader.GluedLineLastBlank` | main.cxx:52 | in "NPoints =" followed by blank-free text, `strrchr` finds the blank at index 7, before the '=' |
| `MeshReader.GluedCountLineReadsZero` | main.cxx:50-52 | "NPoints =<n>", with no blank after '=', is a count line, but it declares 0 points, because the last blank comes before '=' |
| `MeshReader.DeclaredCountOfHeader` | main.cxx:49-52 | a header whose first count line is "NPoints = n" is readable and declares n points |
| `MeshReader.Positions` | main.cxx:57-61 | the vertex list holds the records' positions in read order |
| `ExtremaAnalyzer.Pick` | main.cxx:73-128 | a landmark scan's final index, if it ever updated, is a vertex index in [0, N) |
| `ExtremaAnalyzer.Chosen` | main.cxx:73-128 | a landmark global after a scan is either its previous value (always so when the scan never updated) or a vertex of the mesh with its own index |
| `ExtremaAnalyzer.PickStep` | main.cxx:76-81 | one loop step: the vertex is taken exactly when it is on the side and strictly beats the running value, which then becomes its coordinate |
| `ExtremaAnalyzer.PickFindsFirstExtreme` | main.cxx:73-128 | a scan's pick is the first candidate that no candidate strictly beats; it picks nothing exactly when no vertex on the side beats the sentinel |
| `ExtremaAnalyzer.FirstExtremeUnique` | main.cxx:73-128 | the first strictly best candidate is unique |
| `ExtremaAnalyzer.PickIsFirstExtreme` | main.cxx:73-128 | a scan picks k if and only if k is the first strictly best candidate |
| `ExtremaAnalyzer.LowestCharacterized` | main.cxx:105-116 | a minimum scan picks k iff k is on the side below 1000, no vertex on the side is lower, and every earlier one on the side is strictly higher |
| `ExtremaAnalyzer.HighestCharacterized` | main.cxx:117-128 | a maximum scan picks k iff k is on the side above -1000, no vertex on the side is higher, and every earlier one on the side is strictly lower |
| `ExtremaAnalyzer.LeftIsFirstLowestX` | main.cxx:76-81 | Left is the first vertex of minimal x, when that x is below 1000 |
| `ExtremaAnalyzer.RightIsFirstHighestX` | main.cxx:82-87 | Right is the first vertex of maximal x, when that x is above -1000 |
| `ExtremaAnalyzer.PosteriorIsFirstLowestZ` | main.cxx:88-93 | Posterior is the first vertex of minimal z, when that z is below 1000 |
| `ExtremaAnalyzer.InferiorIsFirstHighestY` | main.cxx:94-99 | Inferior is the first vertex of maximal y (not minimal), when that y is above -1000 |
| `ExtremaAnalyzer.LeftSuperiorIsFirstLowestY` | main.cxx:105-110 | LeftSuperior is the first vertex of minimal y among those with x < centre, when that y is below 1000 |
| `ExtremaAnalyzer.RightSuperiorIsFirstLowestY` | main.cxx:111-116 | RightSuperior is the first vertex of minimal y among those with x > centre, when that y is below 1000 |
| `ExtremaAnalyzer.LeftAnteriorIsFirstHighestZ` | main.cxx:117-122 | LeftAnterior is the first vertex of maximal z among those with x < centre, when that z is above -1000 |
| `ExtremaAnalyzer.RightAnteriorIsFirstHighestZ` | main.cxx:123-128 | RightAnterior is the first vertex of maximal z among those with x > centre, when that z is above -1000 |
| `ExtremaAnalyzer.QuadrantsExcludeCenter` | main.cxx:105-128 | LeftSuperior and LeftAnterior picks have x < centre, RightSuperior and RightAnterior picks have x > centre, so a vertex at the centre is never picked |
| `ExtremaAnalyzer.XCenterIsMidpoint` | main.cxx:69-101 | if some vertex has -1000 < x < 1000, Left and Right both update and the centre is exactly half the sum of their x values, hence between them |
| `ExtremaAnalyzer.XCenterWithSentinels` | main.cxx:69-101 | when no vertex beats Left's (or Right's) sentinel, the centre takes 1000.0 (or -1000.0) in its place; an empty mesh gives centre 0 |
| `ReportWriter.Label` | main.cxx:151-168 | a label is in 0..8; it is 0 exactly when the index is no landmark index; otherwise it is the first landmark in the order Left, Right, Inferior, Posterior, LeftAnterior, RightAnterior, LeftSuperior, RightSuperior at that index |
| `ReportWriter.LabelLines` | main.cxx:149-169 | one label line per vertex index |
| `ReportWriter.AttributeFile` | main.cxx:148-169 | the attribute file is the three header lines followed by exactly N label lines (none when N is not positive) |
| `ReportWriter.AttributeHeaderReadsBack` | main.cxx:148 | the first header line is "NUMBER_OF_POINTS=" followed by text that reads back as N |
| `ReportWriter.AttributeLabelReadsBack` | main.cxx:151-168 | line 3 + i reads back as vertex i's label, in 0..8, nonzero exactly at a landmark index |
| `MinMaxMeshReader.MeshState.LandmarkOrder` | main.cxx:151-166 | the eight landmark indices, in label priority order |
| `MinMaxMeshReader.MeshState.constructor` | main.cxx:16-19 | zero-initialised globals: no vertices, every landmark the origin with index 0 |
| `MinMaxMeshReader.MeshState.ReadMesh` | main.cxx:37-65 | the count is the one declared by the first count line; the vertex list is replaced by the positions of the first N records, in order; landmarks are untouched |
| `MinMaxMeshReader.MeshState.ComputeMinMax` | main.cxx:67-139 | each of the eight landmarks becomes its scan's pick, or keeps its previous value; the second pass uses the centre computed from the first pass's Left and Right values |
| `MinMaxMeshReader.MeshState.ScanWholeMesh` | main.cxx:69-100 | the first loop leaves Left, Right, Posterior and Inferior as their scans' picks and returns the final Left and Right running values |
| `MinMaxMeshReader.MeshState.ScanHalves` | main.cxx:102-129 | the second loop leaves the four side-restricted landmarks as their scans' picks for the given centre |
| `MinMaxMeshReader.MeshState.WriteAttributeFile` | main.cxx:141-171 | the lines written are the attribute file for the current count and landmark indices |
| `MinMaxMeshReader.MeshState.WritePointsFile` | main.cxx:173-189 | exactly six positions, in the order Left, Right, LeftAnterior, RightAnterior, LeftSuperior, RightSuperior; Posterior and Inferior are not written |
| `MinMaxMeshReader.MeshState.Run` | main.cxx:21-35 | reading, scanning and writing in sequence give both files as functions of the input and the previous landmark values |
| `Scenarios.ThreePointWholeMesh` | main.cxx:69-101 | on (-1,0,0), (1,0,0), (0,-1,5): Left 0, Right 1, Posterior 0 and Inferior 0 (ties go to the first vertex), centre 0 |
| `Scenarios.ThreePointHalves` | main.cxx:102-128 | on the same mesh the left landmarks are vertex 0 and the right ones vertex 1; vertex 2, at the centre, is on neither side |
| `Scenarios.ThreePointLabels` | main.cxx:148-169 | for 3 points with landmark indices 0, 1, 0, 0, 0, 1, 0, 1 in label priority order, the attribute file is the header for 3 points, then the labels 1, 2, 0 |
| `Scenarios.ThreePointAttributeFile` | main.cxx:67-169 | on the same mesh, from zero-initialised landmarks, the eight indices the two passes leave, in label priority order, give the attribute file with the labels 1, 2, 0 |

## Left out

- File opening and closing, and stream states: inputs are sequences of lines and records, outputs are sequences of lines and positions.
- The 40-character line buffer: a header line of 40 characters or more makes the stream fail in the code. The model reads whole lines.
- The line buffer read before the first `getline` is uninitialised. The model's scan starts at the first line.
- Token parsing of the data records: `ReadMesh` takes the already-parsed records that follow the skipped separator line. The separator line itself is not represented.
- MeshState.ReadMesh: requires at least N records. With fewer, the code keeps pushing stale values, which is not modelled.
- MeshState.ReadMesh: requires a count line, and a blank in the first one. Without one the code loops forever; without a blank it is undefined.
- `atoi` overflow and the 32-bit `int` count: counts are unbounded integers.
- Floating point: coordinates are exact reals, so the rounding of `0.5*(Left + Right)` and of comparisons is abstracted away.
- The text formatting of doubles in the points file: the model returns the six positions, not their text.
- Console output, the argument-count check and the usage message of the driver.
- `itk::CovariantVector` is replaced by the `Vertex` datatype.
