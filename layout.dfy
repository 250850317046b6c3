/** Row descriptors for the text-layout writer, and the writer itself as an
    accumulator of rows. The writer's own formatting (column widths,
    alignment, borders) and the terminal styling codes are not modelled: a
    row is the list of cells handed to `ui.div`, a styled piece of text is a
    span tagged with the colour it is wrapped in. */
module Layout {
  import opened Wrappers
  import Timings

  datatype Color = Green | Red | Yellow

  /** The colour function a piece of text is passed through, if any. */
  datatype Style = Unstyled | StatusStyle(color: Color) | PhaseStyle(phase: Timings.Phase)

  datatype Span = Span(style: Style, text: string)

  datatype Align = Left | Right

  /** `padding: [top, right, bottom, left]`. */
  datatype Padding = Padding(top: nat, right: nat, bottom: nat, left: nat)

  const NoPadding := Padding(0, 0, 0, 0)

  /** One cell object given to `ui.div`: its text, `width`, `align`, `padding`
      and `border`. */
  datatype Cell = Cell(text: seq<Span>, width: Option<nat>, align: Align, padding: Padding, border: bool)

  /** A cell with unstyled text and every option at its default. */
  function TextCell(s: string): Cell {
    Cell([Span(Unstyled, s)], None, Left, NoPadding, false)
  }

  /** The text of a cell with the styling stripped. */
  function Plain(spans: seq<Span>): string {
    if spans == [] then "" else Plain(spans[..|spans| - 1]) + spans[|spans| - 1].text
  }

  /** One call of `ui.div`. `Sizes` stands for the three calls that print a
      headers/body/total size table and `CompressionSaved` for the call that
      prints the compression line; both format byte counts with an external
      library whose output is not modelled. */
  datatype Row =
    | Cells(cells: seq<Cell>)
    | Sizes(headers: int, body: int, total: int)
    | CompressionSaved(encoding: string, saved: Option<int>, original: int)

  /** The layout writer: every `div` appends one row. */
  class Ui {
    var rows: seq<Row>

    constructor ()
      ensures rows == []
    {
      rows := [];
    }

    method Div(row: Row)
      modifies this
      ensures rows == old(rows) + [row]
    {
      rows := rows + [row];
    }
  }
}
