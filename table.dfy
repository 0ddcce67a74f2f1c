/**
 * The console output of `rewards show` in table mode: the rows collected from
 * the rewards map, the banner and title lines, and the bordered table with
 * left-justified columns of widths 20, 46 and 30.
 */
module Table {
  import opened Wrappers
  import opened Config
  import Decimal

  /** One output record: token name, token address in hex, amount in base 10. */
  datatype RewardRow = RewardRow(tokenName: string, address: string, amount: string)

  const Headers: seq<string> := ["Token Name", "Token Address", "Amount (Wei)"]
  const Widths: seq<nat> := [20, 46, 30]

  const LatestBanner := "> Showing rewards for latest root (can contain non-claimable rewards)"
  const LatestActiveBanner := "> Showing rewards for latest active root (only claimable rewards)"

  function Repeat(c: char, n: nat): (r: string)
    ensures |r| == n && forall i :: 0 <= i < n ==> r[i] == c
  {
    seq(n, _ => c)
  }

  /** "%-*s": the text, then spaces up to the width; longer text is never cut. */
  function PadRight(s: string, w: nat): (r: string)
    ensures |r| == (if |s| < w then w else |s|)
    ensures r[..|s|] == s
    ensures forall i :: |s| <= i < |r| ==> r[i] == ' '
  {
    if |s| < w then s + Repeat(' ', w - |s|) else s
  }

  /** The banner names the latest root exactly when that root was asked for. */
  function Banner(ts: Timestamp): (b: string)
    ensures b == LatestBanner <==> ts == Latest
    ensures ts == LatestActive ==> b == LatestActiveBanner
  {
    if ts == Latest then LatestBanner else LatestActiveBanner
  }

  /** The section title: the message between two runs of 30 dashes, one space on either side. */
  function Title(msg: string): (t: string)
    ensures |t| == |msg| + 62
    ensures t[..31] == Repeat('-', 30) + " "
    ensures t[31..31 + |msg|] == msg
    ensures t[31 + |msg|..] == " " + Repeat('-', 30)
  {
    Repeat('-', 30) + " " + msg + " " + Repeat('-', 30)
  }

  /** Characters a row of these column widths takes before its closing bar. */
  function SpanWidth(ws: seq<nat>): nat {
    if |ws| == 0 then 0 else SpanWidth(ws[..|ws| - 1]) + ws[|ws| - 1] + 2
  }

  /** For each width w in turn: the corner, then w + 1 dashes. */
  function RuleSegments(corner: char, ws: seq<nat>): (r: string)
    ensures |r| == SpanWidth(ws)
  {
    if |ws| == 0 then ""
    else RuleSegments(corner, ws[..|ws| - 1]) + [corner] + Repeat('-', ws[|ws| - 1] + 1)
  }

  /** A horizontal rule: the border (corner '+') or the header separator (corner '|'). */
  function Rule(corner: char, ws: seq<nat>): string {
    RuleSegments(corner, ws) + [corner]
  }

  /** Every cell fits its column. */
  predicate Fits(cells: seq<string>, ws: seq<nat>)
    requires |cells| == |ws|
  {
    forall i :: 0 <= i < |ws| ==> |cells[i]| <= ws[i]
  }

  /** For each cell in turn: "| ", then the cell padded to its width. */
  function RowCells(cells: seq<string>, ws: seq<nat>): (r: string)
    requires |cells| == |ws|
    ensures |r| >= SpanWidth(ws)
    ensures Fits(cells, ws) ==> |r| == SpanWidth(ws)
  {
    if |ws| == 0 then ""
    else RowCells(cells[..|ws| - 1], ws[..|ws| - 1]) + "| " + PadRight(cells[|ws| - 1], ws[|ws| - 1])
  }

  /** A table line of cells, closed by a bar. */
  function Row(cells: seq<string>, ws: seq<nat>): string
    requires |cells| == |ws|
  {
    RowCells(cells, ws) + "|"
  }

  function DataRow(row: RewardRow): string {
    Row([row.tokenName, row.address, row.amount], Widths)
  }

  /** A column and everything before it fit inside the whole row. */
  lemma {:induction false} SpanOfPrefix(ws: seq<nat>, k: nat)
    requires k < |ws|
    ensures SpanWidth(ws[..k]) + ws[k] + 2 <= SpanWidth(ws)
    decreases |ws|
  {
    var n := |ws|;
    if k == n - 1 {
      assert ws[..n][..k] == ws[..k];
    } else {
      SpanOfPrefix(ws[..n - 1], k);
      assert ws[..n - 1][..k] == ws[..k];
    }
  }

  /** In a row whose cells fit, the k-th column boundary is a bar. */
  lemma {:induction false} RowBoundary(cells: seq<string>, ws: seq<nat>, k: nat)
    requires |cells| == |ws| && Fits(cells, ws) && k <= |ws|
    ensures SpanWidth(ws[..k]) <= SpanWidth(ws) == |RowCells(cells, ws)|
    ensures Row(cells, ws)[SpanWidth(ws[..k])] == '|'
    decreases |ws|
  {
    var n := |ws|;
    if k == n {
      assert ws[..k] == ws;
    } else {
      var pc, pw := cells[..n - 1], ws[..n - 1];
      assert Fits(pc, pw);
      var tail := "| " + PadRight(cells[n - 1], ws[n - 1]);
      assert RowCells(cells, ws) == RowCells(pc, pw) + tail;
      SpanOfPrefix(ws, k);
      if k == n - 1 {
        assert ws[..k] == pw;
        assert Row(cells, ws)[SpanWidth(pw)] == tail[0];
      } else {
        RowBoundary(pc, pw, k);
        assert pw[..k] == ws[..k];
        SpanOfPrefix(pw, k);
        var p := SpanWidth(ws[..k]);
        assert Row(cells, ws)[p] == RowCells(pc, pw)[p] == Row(pc, pw)[p];
      }
    }
  }

  /** In a rule, the k-th column boundary is the corner. */
  lemma {:induction false} RuleCorner(corner: char, ws: seq<nat>, k: nat)
    requires k <= |ws|
    ensures SpanWidth(ws[..k]) <= SpanWidth(ws) == |RuleSegments(corner, ws)|
    ensures Rule(corner, ws)[SpanWidth(ws[..k])] == corner
    decreases |ws|
  {
    var n := |ws|;
    if k == n {
      assert ws[..k] == ws;
    } else {
      var pw := ws[..n - 1];
      var tail := [corner] + Repeat('-', ws[n - 1] + 1);
      assert RuleSegments(corner, ws) == RuleSegments(corner, pw) + tail;
      SpanOfPrefix(ws, k);
      if k == n - 1 {
        assert ws[..k] == pw;
        assert Rule(corner, ws)[SpanWidth(pw)] == tail[0];
      } else {
        RuleCorner(corner, pw, k);
        assert pw[..k] == ws[..k];
        SpanOfPrefix(pw, k);
        var p := SpanWidth(ws[..k]);
        assert Rule(corner, ws)[p] == RuleSegments(corner, pw)[p] == Rule(corner, pw)[p];
      }
    }
  }

  /**
   * Where the cells of a row fit their columns, the row is exactly as long as
   * the rules, and every column boundary of the row ('|') falls where the
   * rules put a corner.
   */
  lemma ColumnsAlign(corner: char, cells: seq<string>, ws: seq<nat>, k: nat)
    requires |cells| == |ws| && Fits(cells, ws) && k <= |ws|
    ensures |Row(cells, ws)| == |Rule(corner, ws)| == SpanWidth(ws) + 1
    ensures SpanWidth(ws[..k]) <= SpanWidth(ws)
    ensures Row(cells, ws)[SpanWidth(ws[..k])] == '|'
    ensures Rule(corner, ws)[SpanWidth(ws[..k])] == corner
  {
    RowBoundary(cells, ws, k);
    RuleCorner(corner, ws, k);
  }

  /** A data row is the three padded fields, each opened by "| ", closed by "|". */
  lemma DataRowShape(name: string, address: string, amount: string)
    ensures DataRow(RewardRow(name, address, amount))
            == "| " + PadRight(name, 20) + "| " + PadRight(address, 46) + "| " + PadRight(amount, 30) + "|"
  {
    var cells := [name, address, amount];
    assert cells[..2] == [name, address] && [name, address][..1] == [name] && [name][..0] == [];
    assert Widths[..2] == [20, 46] && [20, 46][..1] == [20] && [20][..0] == [];
    calc {
      RowCells(cells, Widths);
      RowCells([name, address], [20, 46]) + "| " + PadRight(amount, 30);
      RowCells([name], [20]) + "| " + PadRight(address, 46) + "| " + PadRight(amount, 30);
      "| " + PadRight(name, 20) + "| " + PadRight(address, 46) + "| " + PadRight(amount, 30);
    }
  }

  /** The border: for each width, '+' and width + 1 dashes; then a final '+'. */
  lemma BorderShape()
    ensures Rule('+', Widths)
            == "+" + Repeat('-', 21) + "+" + Repeat('-', 47) + "+" + Repeat('-', 31) + "+"
    ensures |Rule('+', Widths)| == 103
  {
    assert Widths[..2] == [20, 46] && [20, 46][..1] == [20] && [20][..0] == [];
    calc {
      RuleSegments('+', Widths);
      RuleSegments('+', [20, 46]) + "+" + Repeat('-', 31);
      RuleSegments('+', [20]) + "+" + Repeat('-', 47) + "+" + Repeat('-', 31);
      "+" + Repeat('-', 21) + "+" + Repeat('-', 47) + "+" + Repeat('-', 31);
    }
  }

  /**
   * The column headers fit their widths, so every bar of the header line
   * stands where the borders and the separator have a corner.
   */
  lemma HeaderAligned()
    ensures Fits(Headers, Widths)
    ensures |Row(Headers, Widths)| == |Rule('+', Widths)| == |Rule('|', Widths)|
    ensures forall k :: 0 <= k <= |Widths| ==>
      && SpanWidth(Widths[..k]) < |Row(Headers, Widths)|
      && Row(Headers, Widths)[SpanWidth(Widths[..k])] == '|'
      && Rule('+', Widths)[SpanWidth(Widths[..k])] == '+'
  {
    forall k | 0 <= k <= |Widths|
      ensures SpanWidth(Widths[..k]) < |Row(Headers, Widths)|
      ensures Row(Headers, Widths)[SpanWidth(Widths[..k])] == '|'
      ensures Rule('+', Widths)[SpanWidth(Widths[..k])] == '+'
    {
      ColumnsAlign('+', Headers, Widths, k);
    }
    ColumnsAlign('|', Headers, Widths, 0);
  }

  /** The lines printRewards prints for the given rows, in order. */
  ghost predicate IsRewardsTable(lines: seq<string>, rows: seq<RewardRow>) {
    && |lines| == |rows| + 4
    && lines[0] == Rule('+', Widths)
    && lines[1] == Row(Headers, Widths)
    && lines[2] == Rule('|', Widths)
    && (forall i :: 0 <= i < |rows| ==> lines[i + 3] == DataRow(rows[i]))
    && lines[|rows| + 3] == Rule('+', Widths)
  }

  /** One rule line, built column by column. */
  method RuleLine(corner: char, widths: seq<nat>) returns (line: string)
    ensures line == Rule(corner, widths)
  {
    line := "";
    for i := 0 to |widths|
      invariant line == RuleSegments(corner, widths[..i])
    {
      assert widths[..i + 1][..i] == widths[..i];
      line := line + [corner] + Repeat('-', widths[i] + 1);
    }
    assert widths[..|widths|] == widths;
    line := line + [corner];
  }

  /** One row of cells, built cell by cell. */
  method CellsLine(cells: seq<string>, widths: seq<nat>) returns (line: string)
    requires |cells| == |widths|
    ensures line == Row(cells, widths)
  {
    line := "";
    for i := 0 to |cells|
      invariant line == RowCells(cells[..i], widths[..i])
    {
      assert cells[..i + 1][..i] == cells[..i] && widths[..i + 1][..i] == widths[..i];
      line := line + "| " + PadRight(cells[i], widths[i]);
    }
    assert cells[..|cells|] == cells && widths[..|widths|] == widths;
    line := line + "|";
  }

  /** printRewards: top border, header, separator, one line per row, bottom border. */
  method PrintRewards(rows: seq<RewardRow>) returns (lines: seq<string>)
    ensures IsRewardsTable(lines, rows)
  {
    var top := RuleLine('+', Widths);
    var header := CellsLine(Headers, Widths);
    var separator := RuleLine('|', Widths);
    lines := [top, header, separator];
    for i := 0 to |rows|
      invariant |lines| == i + 3
      invariant lines[0] == Rule('+', Widths) && lines[1] == Row(Headers, Widths)
      invariant lines[2] == Rule('|', Widths)
      invariant forall j :: 0 <= j < i ==> lines[j + 3] == DataRow(rows[j])
    {
      var r := rows[i];
      DataRowShape(r.tokenName, r.address, r.amount);
      lines := lines + ["| " + PadRight(r.tokenName, 20) + "| " + PadRight(r.address, 46)
                        + "| " + PadRight(r.amount, 30) + "|"];
    }
    var bottom := RuleLine('+', Widths);
    lines := lines + [bottom];
  }

  /**
   * rows lists every entry of the rewards map exactly once, in the order
   * `order` (map order is unspecified), with the token's name, its hex address
   * and the exact base-10 amount.
   */
  ghost predicate IsRowsOf(
    rows: seq<RewardRow>, order: seq<Address>, rewards: map<Address, int>,
    tokenName: Address -> string, hex: Address -> string)
  {
    && |rows| == |order|
    && (forall i, j :: 0 <= i < j < |order| ==> order[i] != order[j])
    && (forall k :: k in rewards <==> k in order)
    && (forall i :: 0 <= i < |rows| ==>
          && order[i] in rewards
          && rows[i] == RewardRow(tokenName(order[i]), hex(order[i]), Decimal.IntToDecimal(rewards[order[i]])))
  }

  /**
   * The row loop of handleRewardsOutput: one row per map entry, each amount
   * shown exactly (reading it back in base 10 gives the amount).
   */
  method CollectRows(rewards: map<Address, int>, tokenName: Address -> string, hex: Address -> string)
    returns (rows: seq<RewardRow>, ghost order: seq<Address>)
    ensures IsRowsOf(rows, order, rewards, tokenName, hex)
    ensures |rows| == |rewards|
    ensures forall i :: 0 <= i < |rows| ==> Decimal.ParseDecimal(rows[i].amount) == Some(rewards[order[i]])
  {
    rows, order := [], [];
    var pending := rewards.Keys;
    while pending != {}
      invariant pending <= rewards.Keys
      invariant forall k :: k in order <==> k in rewards && k !in pending
      invariant |order| + |pending| == |rewards|
      invariant IsRowsOf(rows, order, rewards - pending, tokenName, hex)
      invariant forall i :: 0 <= i < |rows| ==> Decimal.ParseDecimal(rows[i].amount) == Some(rewards[order[i]])
      decreases pending
    {
      var address :| address in pending;
      var amount := rewards[address];
      Decimal.DecimalRoundTrip(amount);
      rows := rows + [RewardRow(tokenName(address), hex(address), Decimal.IntToDecimal(amount))];
      order := order + [address];
      pending := pending - {address};
    }
  }

  /**
   * handleRewardsOutput in table mode: a blank line, the banner, a blank
   * line, the title, then the table of one row per map entry.
   */
  method HandleTableOutput(
    ts: Timestamp, rewards: map<Address, int>, msg: string,
    tokenName: Address -> string, hex: Address -> string)
    returns (rows: seq<RewardRow>, ghost order: seq<Address>, lines: seq<string>)
    ensures IsRowsOf(rows, order, rewards, tokenName, hex)
    ensures |lines| == |rewards| + 8
    ensures lines[..4] == ["", Banner(ts), "", Title(msg)]
    ensures IsRewardsTable(lines[4..], rows)
  {
    rows, order := CollectRows(rewards, tokenName, hex);
    var table := PrintRewards(rows);
    lines := ["", Banner(ts), "", Title(msg)] + table;
    assert lines[4..] == table;
  }
}
