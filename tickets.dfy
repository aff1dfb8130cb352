/**
  The ticket grid of `generate_tickets_pdf`: which cells are placed for one
  registry entry and what each shows. Coordinates, sizes and drawing are not
  modelled; a ticket is its (row, column) cell and the content drawn into it.
 */
module Tickets {
  import opened EanCode

  /** `cols`: the grid always has three columns. */
  const Cols: int := 3

  /** One placed ticket: its grid cell, the picture drawn on its left, the code
      handed to the barcode generator, and the two text lines. */
  datatype Ticket = Ticket(row: int, col: int, picture: string, barcode: string, productText: string, brandText: string)

  /** The ticket sits in the cell that index i denotes in row-major order over
      three columns. */
  predicate PlacedAt(ticket: Ticket, i: int) {
    0 <= ticket.col < Cols && 0 <= ticket.row && CellIndex(ticket.row, ticket.col) == i
  }

  /** The ticket shows the entry's model picture, its code and its names. */
  predicate ShowsEntry(ticket: Ticket, entry: Entry) {
    && ticket.picture == entry.modelPath
    && ticket.barcode == entry.eanCode
    && ticket.productText == "Product: " + entry.product
    && ticket.brandText == "Brand: " + entry.brand
  }

  /** The cell loop: exactly `duplicates` tickets (none for a negative count, as
      with Python's `range`), ticket i in row-major cell i. */
  method PlaceTickets(entry: Entry, duplicates: int) returns (tickets: seq<Ticket>)
    ensures |tickets| == if duplicates < 0 then 0 else duplicates
    ensures forall i :: 0 <= i < |tickets| ==> PlacedAt(tickets[i], i)
    ensures forall i :: 0 <= i < |tickets| ==> ShowsEntry(tickets[i], entry)
  {
    tickets := [];
    var i := 0;
    while i < duplicates
      invariant 0 <= i && (i <= duplicates || i == 0)
      invariant |tickets| == i
      invariant forall k :: 0 <= k < i ==> PlacedAt(tickets[k], k) && ShowsEntry(tickets[k], entry)
    {
      var col := i % Cols;
      var row := i / Cols;
      tickets := tickets + [Ticket(row, col, entry.modelPath, entry.eanCode, "Product: " + entry.product, "Brand: " + entry.brand)];
      i := i + 1;
    }
  }

  predicate AllPlaced(tickets: seq<Ticket>) {
    forall i :: 0 <= i < |tickets| ==> PlacedAt(tickets[i], i)
  }

  /** The row-major index of the cell in row r, column c. */
  function CellIndex(r: int, c: int): int {
    r * Cols + c
  }

  /** Placed tickets never share a cell, and every cell of the filled part of
      the grid holds the ticket whose index it denotes. */
  lemma TicketsFillGrid(tickets: seq<Ticket>)
    requires AllPlaced(tickets)
    ensures forall i, j :: 0 <= i < j < |tickets| ==>
      (tickets[i].row, tickets[i].col) != (tickets[j].row, tickets[j].col)
    ensures forall r, c :: 0 <= c < Cols && 0 <= r && CellIndex(r, c) < |tickets| ==>
      tickets[CellIndex(r, c)].row == r && tickets[CellIndex(r, c)].col == c
  {
  }

  /** `ceil(duplicates / cols)`: the rows needed to hold every ticket. */
  function RowsNeeded(duplicates: int): (rows: int)
    ensures Cols * (rows - 1) < duplicates <= Cols * rows
  {
    (duplicates + Cols - 1) / Cols
  }

  /** `rows`: the rows needed, capped by the `capacity` rows that fit on the
      page (the truncated quotient of available height by ticket height). */
  function Rows(duplicates: int, capacity: int): (rows: int)
    ensures rows <= capacity && rows <= RowsNeeded(duplicates)
    ensures rows == capacity || rows == RowsNeeded(duplicates)
  {
    if RowsNeeded(duplicates) < capacity then RowsNeeded(duplicates) else capacity
  }

  /** The cell loop does not consult `rows`: every placed ticket lies in one of
      the first `rows` rows exactly when the count fits on the page. Beyond
      that the loop still places every ticket, at row indices `rows` and above. */
  lemma TicketsWithinRows(tickets: seq<Ticket>, duplicates: int, capacity: int)
    requires capacity >= 0
    requires |tickets| == if duplicates < 0 then 0 else duplicates
    requires AllPlaced(tickets)
    ensures (forall i :: 0 <= i < |tickets| ==> tickets[i].row < Rows(duplicates, capacity))
        <==> duplicates <= Cols * capacity
  {
    if duplicates > Cols * capacity {
      var last := tickets[|tickets| - 1];
      assert PlacedAt(last, |tickets| - 1);
      assert last.row >= capacity;
    } else {
      forall i | 0 <= i < |tickets| ensures tickets[i].row < Rows(duplicates, capacity) {
        assert PlacedAt(tickets[i], i);
      }
    }
  }

  /** The program's only call asks for the default 33 tickets, and a page holds
      10 rows of them: `rows` is 10, yet the last three tickets get row index
      10, one past it. */
  lemma DefaultCallOverflows(tickets: seq<Ticket>)
    requires |tickets| == 33 && AllPlaced(tickets)
    ensures Rows(33, 10) == 10
    ensures forall i :: 30 <= i < 33 ==> tickets[i].row == 10
  {
    forall i | 30 <= i < 33 ensures tickets[i].row == 10 {
      assert PlacedAt(tickets[i], i);
    }
  }
}
