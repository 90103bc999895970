/** The board of the goose game: 64 cells drawn as an 8 x 8 grid, cell 0 at the
    top-left and cell 63 at the bottom-right.  Each cell has a block kind (which
    decides its colour and border) and a title made of its index and a suffix.
    The source decides the kind from the grid row and column and the suffix from
    the linear index, in two separate if/else chains; both are modelled here and
    proved to agree on every cell. */
module Board {

  const Rows: int := 8
  const MaxColumns: int := 8
  /** The first and the last cell of the track. */
  const First: int := 0
  const Last: int := 63

  /** The five block kinds: start, end, setback ("castigo"), bonus ("suerte"), normal. */
  datatype BlockKind = FirstBlock | LastBlock | Punish | Good | Normal

  /** One rendered cell: its index, its block kind and the suffix of its title
      (the title itself is the index followed by the suffix). */
  datatype Cell = Cell(index: int, kind: BlockKind, suffix: string)

  /** The linear index of the cell drawn at (row, col): rows are filled left to right. */
  function CellIndex(row: int, col: int): (i: int)
    requires 0 <= row < Rows && 0 <= col < MaxColumns
    ensures First <= i <= Last
    ensures i / MaxColumns == row && i % MaxColumns == col
  {
    col + row * MaxColumns
  }

  /** The title suffix chosen from the linear index (first match wins). */
  function LabelSuffix(index: int): (s: string)
    requires First <= index <= Last
    ensures s == "-Inicio" <==> index == First
    ensures s == "-Fin" <==> index == Last
    ensures s == "-Castigo" <==> index != First && index % 5 == 0
    ensures s == "-Suerte" <==> index != Last && index % 7 == 0 && index % 5 != 0
    ensures s == "" <==> index % 5 != 0 && index % 7 != 0
  {
    if index == 0 then "-Inicio"
    else if index == 63 then "-Fin"
    else if index % 5 == 0 then "-Castigo"
    else if index % 7 == 0 then "-Suerte"
    else ""
  }

  /** The suffix that belongs to each block kind. */
  function SuffixOf(k: BlockKind): string
  {
    match k
    case FirstBlock => "-Inicio"
    case LastBlock => "-Fin"
    case Punish => "-Castigo"
    case Good => "-Suerte"
    case Normal => ""
  }

  /** The block kind chosen from the grid position: the corners are decided by
      row and column, the special cells on the linear index.  Its contract is
      the agreement of the two chains: the kind drawn at (row, col) always
      carries the suffix that the index-based chain gives that cell. */
  function KindAt(row: int, col: int): (k: BlockKind)
    requires 0 <= row < Rows && 0 <= col < MaxColumns
    ensures SuffixOf(k) == LabelSuffix(CellIndex(row, col))
  {
    var index := CellIndex(row, col);
    if row == 0 && col == 0 then FirstBlock
    else if row == Rows - 1 && col == MaxColumns - 1 then LastBlock
    else if index % 5 == 0 then Punish
    else if index % 7 == 0 then Good
    else Normal
  }

  /** Distinct kinds carry distinct suffixes, so a suffix names its kind. */
  lemma SuffixDeterminesKind(k1: BlockKind, k2: BlockKind)
    requires SuffixOf(k1) == SuffixOf(k2)
    ensures k1 == k2
  {
  }

  /** The two chains agree on all 64 cells, in both directions: the kind of a
      cell is Punish exactly when its suffix is "-Castigo", and so on. */
  lemma KindAndLabelAgree(row: int, col: int, k: BlockKind)
    requires 0 <= row < Rows && 0 <= col < MaxColumns
    ensures KindAt(row, col) == k <==> SuffixOf(k) == LabelSuffix(CellIndex(row, col))
  {
  }

  /** The precedence of the chain: index 0 is the start although 0 is a multiple
      of 5, 35 is a setback although it is also a multiple of 7, and 63 is the end
      although it is a multiple of 7. */
  lemma Precedence()
    ensures KindAt(0, 0) == FirstBlock && LabelSuffix(0) == "-Inicio"
    ensures KindAt(4, 3) == Punish && CellIndex(4, 3) == 35 && LabelSuffix(35) == "-Castigo"
    ensures KindAt(7, 7) == LastBlock && CellIndex(7, 7) == 63 && LabelSuffix(63) == "-Fin"
  {
  }

  /** The cell loop of the board drawing: rows top to bottom, columns left to
      right, computing each cell's index, kind and title suffix (drawing left out). */
  method BoardCells() returns (cells: seq<Cell>)
    ensures |cells| == Rows * MaxColumns
    ensures forall i :: 0 <= i < |cells| ==>
              cells[i].index == i && cells[i].suffix == LabelSuffix(i)
              && cells[i].kind == KindAt(i / MaxColumns, i % MaxColumns)
              && SuffixOf(cells[i].kind) == cells[i].suffix
  {
    cells := [];
    for row := 0 to Rows
      invariant |cells| == row * MaxColumns
      invariant forall i :: 0 <= i < |cells| ==>
                  cells[i].index == i && cells[i].suffix == LabelSuffix(i)
                  && cells[i].kind == KindAt(i / MaxColumns, i % MaxColumns)
                  && SuffixOf(cells[i].kind) == cells[i].suffix
    {
      for col := 0 to MaxColumns
        invariant |cells| == row * MaxColumns + col
        invariant forall i :: 0 <= i < |cells| ==>
                    cells[i].index == i && cells[i].suffix == LabelSuffix(i)
                    && cells[i].kind == KindAt(i / MaxColumns, i % MaxColumns)
                    && SuffixOf(cells[i].kind) == cells[i].suffix
      {
        var index := CellIndex(row, col);
        cells := cells + [Cell(index, KindAt(row, col), LabelSuffix(index))];
      }
    }
  }
}
