/** The export of the audit log as comma-separated values, and a reader for that format per section 2 of RFC 4180
    with a line feed as the line break. */
module AuditCsv {
  import opened Wrappers

  type Cell = string
  type Grid = seq<seq<Cell>>

  /* What is exported. */

  datatype Actor = Actor(id: string, email: string, name: string, role: string)

  datatype References = References(
    targetUserId: Option<string>, targetStreamId: Option<string>, targetReportId: Option<string>,
    targetPayoutRequestId: Option<string>, targetSupportTicketId: Option<string>)

  datatype Item = Item(
    id: string, timestamp: string, severity: string, actionType: string, actionCode: string, actionLabel: string,
    status: string, actor: Actor, resourceType: string, resourceId: Option<string>, references: References,
    requestPath: Option<string>, ip: Option<string>, location: Option<string>, device: Option<string>)

  const HEADERS: seq<Cell> :=
    ["Audit ID", "Timestamp", "Severity", "Action Type", "Action Code", "Action Label", "Status", "Actor ID",
     "Actor Email", "Actor Name", "Actor Role", "Resource Type", "Resource ID", "Target User ID", "Target Stream ID",
     "Target Report ID", "Target Payout Request ID", "Target Support Ticket ID", "Request Path", "IP Address",
     "Location", "Device"]

  function OrBlank(value: Option<string>): Cell {
    if value.Some? then value.value else ""
  }

  function RowOf(item: Item): (row: seq<Cell>)
    ensures |row| == |HEADERS|
  {
    [item.id, item.timestamp, item.severity, item.actionType, item.actionCode, item.actionLabel, item.status,
     item.actor.id, item.actor.email, item.actor.name, item.actor.role, item.resourceType, OrBlank(item.resourceId),
     OrBlank(item.references.targetUserId), OrBlank(item.references.targetStreamId),
     OrBlank(item.references.targetReportId), OrBlank(item.references.targetPayoutRequestId),
     OrBlank(item.references.targetSupportTicketId), OrBlank(item.requestPath), OrBlank(item.ip),
     OrBlank(item.location), OrBlank(item.device)]
  }

  // The columns by name.
  datatype Column =
    | AuditId | Timestamp | Severity | ActionType | ActionCode | ActionLabel | Status | ActorId | ActorEmail | ActorName
    | ActorRole | ResourceType | ResourceId | TargetUserId | TargetStreamId | TargetReportId | TargetPayoutRequestId
    | TargetSupportTicketId | RequestPath | IpAddress | Location | Device

  function Title(column: Column): Cell {
    match column
    case AuditId => "Audit ID"
    case Timestamp => "Timestamp"
    case Severity => "Severity"
    case ActionType => "Action Type"
    case ActionCode => "Action Code"
    case ActionLabel => "Action Label"
    case Status => "Status"
    case ActorId => "Actor ID"
    case ActorEmail => "Actor Email"
    case ActorName => "Actor Name"
    case ActorRole => "Actor Role"
    case ResourceType => "Resource Type"
    case ResourceId => "Resource ID"
    case TargetUserId => "Target User ID"
    case TargetStreamId => "Target Stream ID"
    case TargetReportId => "Target Report ID"
    case TargetPayoutRequestId => "Target Payout Request ID"
    case TargetSupportTicketId => "Target Support Ticket ID"
    case RequestPath => "Request Path"
    case IpAddress => "IP Address"
    case Location => "Location"
    case Device => "Device"
  }

  // What an item has in a column; a missing value is blank.
  function Shown(item: Item, column: Column): Option<Cell> {
    match column
    case AuditId => Some(item.id)
    case Timestamp => Some(item.timestamp)
    case Severity => Some(item.severity)
    case ActionType => Some(item.actionType)
    case ActionCode => Some(item.actionCode)
    case ActionLabel => Some(item.actionLabel)
    case Status => Some(item.status)
    case ActorId => Some(item.actor.id)
    case ActorEmail => Some(item.actor.email)
    case ActorName => Some(item.actor.name)
    case ActorRole => Some(item.actor.role)
    case ResourceType => Some(item.resourceType)
    case ResourceId => item.resourceId
    case TargetUserId => item.references.targetUserId
    case TargetStreamId => item.references.targetStreamId
    case TargetReportId => item.references.targetReportId
    case TargetPayoutRequestId => item.references.targetPayoutRequestId
    case TargetSupportTicketId => item.references.targetSupportTicketId
    case RequestPath => item.requestPath
    case IpAddress => item.ip
    case Location => item.location
    case Device => item.device
  }

  // The place of a column.
  function PlaceOf(column: Column): (k: nat)
    ensures k < 22
  {
    match column
    case AuditId => 0
    case Timestamp => 1
    case Severity => 2
    case ActionType => 3
    case ActionCode => 4
    case ActionLabel => 5
    case Status => 6
    case ActorId => 7
    case ActorEmail => 8
    case ActorName => 9
    case ActorRole => 10
    case ResourceType => 11
    case ResourceId => 12
    case TargetUserId => 13
    case TargetStreamId => 14
    case TargetReportId => 15
    case TargetPayoutRequestId => 16
    case TargetSupportTicketId => 17
    case RequestPath => 18
    case IpAddress => 19
    case Location => 20
    case Device => 21
  }

  // Under each title of the header stands that field of the item.
  lemma FieldsStandUnderTheirTitles(item: Item, column: Column)
    ensures |HEADERS| == 22 && HEADERS[PlaceOf(column)] == Title(column)
    ensures var shown := Shown(item, column);
            RowOf(item)[PlaceOf(column)] == if shown.Some? then shown.value else ""
  {
    hide *;
    TitlesStand(column);
    ValuesStand(item, column);
  }

  lemma TitlesStand(column: Column)
    ensures |HEADERS| == 22 && HEADERS[PlaceOf(column)] == Title(column)
  {
  }

  lemma ValuesStand(item: Item, column: Column)
    ensures var shown := Shown(item, column);
            RowOf(item)[PlaceOf(column)] == if shown.Some? then shown.value else ""
  {
    if PlaceOf(column) < 12 {
      FirstValuesStand(item, column);
    } else {
      LastValuesStand(item, column);
    }
    hide *;
  }

  lemma FirstValuesStand(item: Item, column: Column)
    requires PlaceOf(column) < 12
    ensures Shown(item, column).Some? && RowOf(item)[PlaceOf(column)] == Shown(item, column).value
  {
    hide Title, HEADERS, OrBlank;
  }

  lemma LastValuesStand(item: Item, column: Column)
    requires PlaceOf(column) >= 12
    ensures RowOf(item)[PlaceOf(column)] == OrBlank(Shown(item, column))
    ensures var shown := Shown(item, column);
            OrBlank(shown) == if shown.Some? then shown.value else ""
  {
    hide Title, HEADERS;
  }

  /* Printing. */

  function Escape(text: string): string {
    if text == "" then ""
    else EscapeChar(text[0]) + Escape(text[1..])
  }

  function EscapeChar(c: char): string {
    if c == '"' then "\"\"" else [c]
  }

  function Quote(cell: Cell): string {
    "\"" + Escape(cell) + "\""
  }

  function QuoteAll(row: seq<Cell>): seq<string> {
    seq(|row|, i requires 0 <= i < |row| => Quote(row[i]))
  }

  function Join(parts: seq<string>, separator: string): string {
    if parts == [] then ""
    else if |parts| == 1 then parts[0]
    else parts[0] + separator + Join(parts[1..], separator)
  }

  function PrintRow(row: seq<Cell>): string {
    Join(QuoteAll(row), ",")
  }

  function RowsOf(items: seq<Item>): (rows: Grid)
    ensures |rows| == |items| && forall i :: 0 <= i < |rows| ==> rows[i] == RowOf(items[i])
  {
    seq(|items|, i requires 0 <= i < |items| => RowOf(items[i]))
  }

  function PrintRows(rows: Grid): seq<string> {
    seq(|rows|, i requires 0 <= i < |rows| => PrintRow(rows[i]))
  }

  function ExportCsv(items: seq<Item>): string {
    Join([Join(HEADERS, ",")] + PrintRows(RowsOf(items)), "\n")
  }

  /* Reading. */

  // Where the reader stands: at the start of a field, inside a plain or a quoted one, or after a quote that closes
  // the field unless another quote follows.
  datatype Place = Start | Plain | Quoted | Closed

  function Read(text: string, place: Place, cell: Cell, row: seq<Cell>, grid: Grid): Option<Grid>
    decreases |text|
  {
    if text == "" then
      if place == Quoted then None
      else if place == Start && row == [] && grid != [] then Some(grid)
      else Some(grid + [row + [cell]])
    else
      var c, rest := text[0], text[1..];
      match place
      case Quoted => if c == '"' then Read(rest, Closed, cell, row, grid) else Read(rest, Quoted, cell + [c], row, grid)
      case _ =>
        if c == ',' then Read(rest, Start, "", row + [cell], grid)
        else if c == '\n' then Read(rest, Start, "", [], grid + [row + [cell]])
        else if c == '"' then
          if place == Start then Read(rest, Quoted, "", row, grid)
          else if place == Closed then Read(rest, Quoted, cell + [c], row, grid)
          else None
        else if place == Closed then None
        else Read(rest, Plain, cell + [c], row, grid)
  }

  function Parse(text: string): Option<Grid> {
    Read(text, Start, "", [], [])
  }

  /* Reading what was printed. */

  lemma {:induction false} ReadEscapedChar(c: char, rest: string, cell: Cell, row: seq<Cell>, grid: Grid)
    ensures Read(EscapeChar(c) + rest, Quoted, cell, row, grid) == Read(rest, Quoted, cell + [c], row, grid)
  {
    var printed := EscapeChar(c) + rest;
    if c == '"' {
      assert printed == ['"', '"'] + rest;
      assert printed[1..] == ['"'] + rest && printed[1..][1..] == rest;
    } else {
      assert printed[1..] == rest;
    }
  }

  lemma {:induction false} ReadEscaped(text: string, rest: string, cell: Cell, row: seq<Cell>, grid: Grid)
    ensures Read(Escape(text) + rest, Quoted, cell, row, grid) == Read(rest, Quoted, cell + text, row, grid)
  {
    hide Read;
    if text == "" {
      assert Escape(text) + rest == rest && cell + text == cell;
    } else {
      assert Escape(text) + rest == EscapeChar(text[0]) + (Escape(text[1..]) + rest);
      ReadEscapedChar(text[0], Escape(text[1..]) + rest, cell, row, grid);
      ReadEscaped(text[1..], rest, cell + [text[0]], row, grid);
      assert cell + text == cell + [text[0]] + text[1..];
    }
  }

  lemma {:induction false} ReadQuoted(value: Cell, rest: string, row: seq<Cell>, grid: Grid)
    ensures Read(Quote(value) + rest, Start, "", row, grid) == Read(rest, Closed, value, row, grid)
  {
    var printed := Quote(value) + rest;
    var tail := Escape(value) + ("\"" + rest);
    assert printed == "\"" + tail && printed[1..] == tail;
    ReadEscaped(value, "\"" + rest, "", row, grid);
    assert "" + value == value && ("\"" + rest)[1..] == rest;
  }

  lemma {:induction false} ReadBreak(rest: string, place: Place, cell: Cell, row: seq<Cell>, grid: Grid)
    requires (place == Plain || place == Closed) && (rest == "" || rest[0] == ',' || rest[0] == '\n')
    ensures Read(rest, place, cell, row, grid)
         == if rest == "" then Some(grid + [row + [cell]])
            else if rest[0] == ',' then Read(rest[1..], Start, "", row + [cell], grid)
            else Read(rest[1..], Start, "", [], grid + [row + [cell]])
  {
  }

  lemma {:induction false} ReadRow(row: seq<Cell>, rest: string, before: seq<Cell>, grid: Grid)
    requires row != [] && (rest == "" || rest[0] == '\n')
    ensures Read(PrintRow(row) + rest, Start, "", before, grid)
         == if rest == "" then Some(grid + [before + row]) else Read(rest[1..], Start, "", [], grid + [before + row])
    decreases |row|
  {
    hide Read;
    if |row| == 1 {
      assert PrintRow(row) == Quote(row[0]);
      ReadQuoted(row[0], rest, before, grid);
      ReadBreak(rest, Closed, row[0], before, grid);
      assert before + row == before + [row[0]];
    } else {
      var tail := "," + (PrintRow(row[1..]) + rest);
      assert QuoteAll(row)[1..] == QuoteAll(row[1..]);
      assert PrintRow(row) + rest == Quote(row[0]) + tail;
      ReadQuoted(row[0], tail, before, grid);
      ReadBreak(tail, Closed, row[0], before, grid);
      assert tail[1..] == PrintRow(row[1..]) + rest;
      ReadRow(row[1..], rest, before + [row[0]], grid);
      assert before + [row[0]] + row[1..] == before + row;
    }
  }

  // A cell printed without quotes reads back when it is made of plain characters.
  predicate IsPlain(cell: Cell) {
    cell != "" && forall i :: 0 <= i < |cell| ==> cell[i] != '"' && cell[i] != ',' && cell[i] != '\n'
  }

  lemma {:induction false} ReadPlain(text: string, rest: string, place: Place, cell: Cell, row: seq<Cell>, grid: Grid)
    requires IsPlain(text) && (place == Plain || (place == Start && cell == ""))
    ensures Read(text + rest, place, cell, row, grid) == Read(rest, Plain, cell + text, row, grid)
    decreases |text|
  {
    var printed := text + rest;
    assert printed[0] == text[0] && printed[1..] == text[1..] + rest;
    assert cell + text == cell + [text[0]] + text[1..];
    if |text| == 1 {
      assert printed[1..] == rest && cell + text == cell + [text[0]];
    } else {
      ReadPlain(text[1..], rest, Plain, cell + [text[0]], row, grid);
    }
  }

  lemma {:induction false} ReadPlainCell(cell: Cell, rest: string, before: seq<Cell>)
    requires IsPlain(cell) && (rest == "" || rest[0] == ',' || rest[0] == '\n')
    ensures Read(cell + rest, Start, "", before, [])
         == if rest == "" then Some([before + [cell]])
            else if rest[0] == ',' then Read(rest[1..], Start, "", before + [cell], [])
            else Read(rest[1..], Start, "", [], [before + [cell]])
  {
    hide Read, IsPlain;
    ReadPlain(cell, rest, Start, "", before, []);
    assert "" + cell == cell;
    ReadBreak(rest, Plain, cell, before, []);
    assert [] + [before + [cell]] == [before + [cell]];
  }

  lemma {:induction false} ReadHeader(row: seq<Cell>, rest: string, before: seq<Cell>)
    requires row != [] && (forall i :: 0 <= i < |row| ==> IsPlain(row[i]))
    requires rest == "" || rest[0] == '\n'
    ensures Read(Join(row, ",") + rest, Start, "", before, [])
         == if rest == "" then Some([before + row]) else Read(rest[1..], Start, "", [], [before + row])
    decreases |row|
  {
    hide IsPlain, Read;
    if |row| == 1 {
      assert row == [row[0]];
      ReadPlainCell(row[0], rest, before);
    } else {
      var more := Join(row[1..], ",") + rest;
      assert Join(row, ",") + rest == row[0] + ("," + more);
      hide Join;
      ReadPlainCell(row[0], "," + more, before);
      assert ("," + more)[1..] == more;
      ReadHeader(row[1..], rest, before + [row[0]]);
      assert before + [row[0]] + row[1..] == before + row;
    }
  }

  lemma EventHeadersArePlain()
    ensures IsPlain("Audit ID") && IsPlain("Timestamp") && IsPlain("Severity") && IsPlain("Action Type")
    ensures IsPlain("Action Code") && IsPlain("Action Label") && IsPlain("Status") && IsPlain("Actor ID")
    ensures IsPlain("Actor Email") && IsPlain("Actor Name") && IsPlain("Actor Role")
  {
  }

  lemma TargetHeadersArePlain()
    ensures IsPlain("Resource Type") && IsPlain("Resource ID") && IsPlain("Target User ID")
    ensures IsPlain("Target Stream ID") && IsPlain("Target Report ID") && IsPlain("Target Payout Request ID")
    ensures IsPlain("Target Support Ticket ID") && IsPlain("Request Path") && IsPlain("IP Address")
    ensures IsPlain("Location") && IsPlain("Device")
  {
  }

  lemma HeadersArePlain()
    ensures forall i :: 0 <= i < |HEADERS| ==> IsPlain(HEADERS[i])
  {
    hide IsPlain;
    EventHeadersArePlain();
    TargetHeadersArePlain();
  }

  // The lines after the ones already read, each led by its line break.
  function Lines(rows: Grid): string {
    if rows == [] then "" else "\n" + PrintRow(rows[0]) + Lines(rows[1..])
  }

  lemma {:induction false} ReadLines(rows: Grid, grid: Grid)
    requires grid != [] && forall i :: 0 <= i < |rows| ==> rows[i] != []
    ensures (if rows == [] then Some(grid) else Read(Lines(rows)[1..], Start, "", [], grid)) == Some(grid + rows)
    decreases |rows|
  {
    hide Read, PrintRow;
    if rows == [] {
      assert grid + rows == grid;
    } else {
      var rest := Lines(rows[1..]);
      assert Lines(rows)[1..] == PrintRow(rows[0]) + rest;
      ReadRow(rows[0], rest, [], grid);
      assert [] + rows[0] == rows[0];
      ReadLines(rows[1..], grid + [rows[0]]);
      assert grid + [rows[0]] + rows[1..] == grid + rows;
    }
  }

  lemma {:induction false} JoinLines(first: string, rows: Grid)
    ensures Join([first] + PrintRows(rows), "\n") == first + Lines(rows)
    decreases |rows|
  {
    var lines := [first] + PrintRows(rows);
    if rows != [] {
      assert lines[1..] == PrintRows(rows) == [PrintRow(rows[0])] + PrintRows(rows[1..]);
      JoinLines(PrintRow(rows[0]), rows[1..]);
      assert first + "\n" + (PrintRow(rows[0]) + Lines(rows[1..])) == first + Lines(rows);
    }
  }

  lemma {:induction false} ReadGrid(header: seq<Cell>, rows: Grid)
    requires header != [] && (forall i :: 0 <= i < |header| ==> IsPlain(header[i]))
    requires forall i :: 0 <= i < |rows| ==> rows[i] != []
    ensures Parse(Join([Join(header, ",")] + PrintRows(rows), "\n")) == Some([header] + rows)
  {
    hide Read, PrintRows;
    JoinLines(Join(header, ","), rows);
    ReadHeader(header, Lines(rows), []);
    assert [] + header == header;
    ReadLines(rows, [header]);
  }

  // Whatever the cells hold, quotes, commas and line breaks included, the exported text reads back as the header
  // and the same grid, each row as wide as the header.
  lemma ExportReadsBack(items: seq<Item>)
    ensures Parse(ExportCsv(items)) == Some([HEADERS] + RowsOf(items))
    ensures forall row :: row in [HEADERS] + RowsOf(items) ==> |row| == |HEADERS|
  {
    hide Parse, IsPlain, Join, PrintRow, RowOf;
    HeadersArePlain();
    ReadGrid(HEADERS, RowsOf(items));
  }

  // So whoever reads the export finds each field of each item under its title.
  lemma ExportShowsEveryField(items: seq<Item>, i: nat, column: Column)
    requires i < |items|
    ensures
      var grid, shown := Parse(ExportCsv(items)), Shown(items[i], column);
      && grid.Some? && |grid.value| == |items| + 1
      && exists k :: 0 <= k < |grid.value[0]| && k < |grid.value[i + 1]| && grid.value[0][k] == Title(column)
                     && grid.value[i + 1][k] == if shown.Some? then shown.value else ""
  {
    hide *;
    ExportReadsBack(items);
    FieldsStandUnderTheirTitles(items[i], column);
    var grid := [HEADERS] + RowsOf(items);
    assert grid[0] == HEADERS && grid[i + 1] == RowsOf(items)[i] == RowOf(items[i]);
    assert grid[0][PlaceOf(column)] == Title(column);
  }

  // So two exports are the same text only when they hold the same cells.
  lemma ExportLosesNothing(items: seq<Item>, others: seq<Item>)
    ensures ExportCsv(items) == ExportCsv(others) ==> RowsOf(items) == RowsOf(others)
  {
    hide ExportCsv, Parse;
    ExportReadsBack(items);
    ExportReadsBack(others);
    assert RowsOf(items) == ([HEADERS] + RowsOf(items))[1..];
    assert RowsOf(others) == ([HEADERS] + RowsOf(others))[1..];
  }
}
