/** The SQL statements the generated code and the runtime helpers build.
    Each is written into a buffer as `item,` per list item, after which the
    buffer is truncated by one character; with a non-empty list that removes
    exactly the trailing comma. Placeholders are positional, `$1 .. $n`. */
module SqlText {
  import opened Text

  /** Each name rendered with `%q`. */
  function Quoted(names: seq<string>): (r: seq<string>)
    ensures |r| == |names|
    ensures forall k :: 0 <= k < |names| ==> r[k] == Quote(names[k])
  {
    seq(|names|, k requires 0 <= k < |names| => Quote(names[k]))
  }

  /** The placeholders of `n` consecutive positions starting at `from`. */
  function Placeholders(from: nat, n: nat): (r: seq<string>)
    ensures |r| == n
    ensures forall k :: 0 <= k < n ==> r[k] == Placeholder(from + k)
  {
    seq(n, k requires 0 <= k < n => Placeholder(from + k))
  }

  /** `"name"=$i` for each name, numbered from `from`. */
  function Assignments(names: seq<string>, from: nat): (r: seq<string>)
    ensures |r| == |names|
    ensures forall k :: 0 <= k < |names| ==> r[k] == Quote(names[k]) + "=" + Placeholder(from + k)
  {
    seq(|names|, k requires 0 <= k < |names| => Quote(names[k]) + "=" + Placeholder(from + k))
  }

  /** The placeholders of a list are pairwise different. */
  lemma PlaceholdersDistinct(from: nat, n: nat)
    ensures forall k, l :: 0 <= k < l < n ==> Placeholders(from, n)[k] != Placeholders(from, n)[l]
  {
    forall k, l | 0 <= k < l < n
      ensures Placeholders(from, n)[k] != Placeholders(from, n)[l]
    {
      if Decimal(from + k) == Decimal(from + l) {
        DecimalInjective(from + k, from + l);
      }
      assert Placeholder(from + k)[1..] == Decimal(from + k);
      assert Placeholder(from + l)[1..] == Decimal(from + l);
    }
  }

  /** The `loadColumnsWhere` SELECT: the quoted column names, the quoted
      table name and the equality clause over the where-columns (built by a
      runtime helper, here given as `whereClause`). */
  function SelectText(table: string, columns: seq<string>, whereClause: string): (r: string)
    ensures |columns| > 0 ==>
              r == "Select " + JoinCommas(Quoted(columns)) + " from " + Quote(table) + " where " + whereClause
    ensures |columns| == 0 ==> r == "Select" + " from " + Quote(table) + " where " + whereClause
  {
    var r := DropLast("Select " + Terminated(Quoted(columns))) + " from " + Quote(table) + " where " + whereClause;
    if |columns| > 0 then TruncatedListIsJoin("Select ", Quoted(columns)); r else r
  }

  /** The `updateColumnsWhere` UPDATE: the table name unquoted, one
      assignment per column numbered from 1, then the where clause, whose
      placeholders the caller numbers from n+1. */
  function UpdateText(table: string, columns: seq<string>, whereClause: string): (r: string)
    ensures |columns| > 0 ==>
              r == "UPDATE " + table + " SET " + JoinCommas(Assignments(columns, 1)) + " WHERE " + whereClause
    ensures |columns| == 0 ==> r == "UPDATE " + table + " SET" + " WHERE " + whereClause
  {
    var prefix := "UPDATE " + table + " SET ";
    assert |columns| > 0 ==> DropLast(prefix + Terminated(Assignments(columns, 1))) == prefix + JoinCommas(Assignments(columns, 1)) by {
      if |columns| > 0 { TruncatedListIsJoin(prefix, Assignments(columns, 1)); }
    }
    assert |columns| == 0 ==> DropLast(prefix + Terminated([])) == "UPDATE " + table + " SET" by {
      assert prefix[..|prefix| - 1] == "UPDATE " + table + " SET";
    }
    DropLast(prefix + Terminated(Assignments(columns, 1))) + " WHERE " + whereClause
  }

  /** The `insertColumns` INSERT: the quoted column names and one placeholder
      per column. */
  function InsertText(table: string, columns: seq<string>): (r: string)
    ensures |columns| > 0 ==>
              r == "INSERT INTO " + table + " ( " + JoinCommas(Quoted(columns))
                   + ") VALUES(" + JoinCommas(Placeholders(1, |columns|)) + ")"
  {
    var head := "INSERT INTO " + table + " ( ";
    var values := DropLast(head + Terminated(Quoted(columns))) + ") VALUES(";
    var r := DropLast(values + Terminated(Placeholders(1, |columns|))) + ")";
    if |columns| > 0 then
      TruncatedListIsJoin(head, Quoted(columns));
      TruncatedListIsJoin(values, Placeholders(1, |columns|));
      r
    else r
  }

  /** `insertColumns` with no columns: both truncations eat the character
      before the empty list. */
  lemma InsertTextWithoutColumns(table: string)
    ensures InsertText(table, []) == "INSERT INTO " + table + " () VALUES)"
  {
    var head := "INSERT INTO " + table + " ( ";
    assert DropLast(head + Terminated(Quoted([]))) == "INSERT INTO " + table + " (" by {
      assert head + Terminated(Quoted([])) == head;
    }
    var values := "INSERT INTO " + table + " (" + ") VALUES(";
    assert DropLast(values + Terminated(Placeholders(1, 0))) == "INSERT INTO " + table + " () VALUES" by {
      assert values + Terminated(Placeholders(1, 0)) == values;
    }
  }

  /** Writes `item,` for each item after `prefix`, then truncates by one:
      the comma-joined items after the prefix, or, for an empty list, the
      prefix without its last character. */
  function AppendList(prefix: string, items: seq<string>): (r: string)
    requires |prefix| > 0
    ensures |items| > 0 ==> r == prefix + JoinCommas(items)
    ensures |items| == 0 ==> r == prefix[..|prefix| - 1]
  {
    if |items| > 0 then
      TruncatedListIsJoin(prefix, items);
      DropLast(prefix + Terminated(items))
    else
      TruncatedEmptyListEatsPrefix(prefix);
      DropLast(prefix + Terminated(items))
  }

  /** `BuildInsertQuery` up to `RETURNING`: the save columns and their
      placeholders, or, with none, what the two truncations leave. */
  function InsertHead(table: string, saveColumns: seq<string>): (r: string)
    ensures |saveColumns| > 0 ==>
              r == "INSERT INTO " + table + "(" + JoinCommas(Quoted(saveColumns))
                   + ") VALUES(" + JoinCommas(Placeholders(1, |saveColumns|)) + ") RETURNING"
    ensures |saveColumns| == 0 ==> r == "INSERT INTO " + table + ") VALUES) RETURNING"
  {
    var head := "INSERT INTO " + table + "(";
    var values := AppendList(head, Quoted(saveColumns)) + ") VALUES(";
    assert |saveColumns| == 0 ==> head[..|head| - 1] == "INSERT INTO " + table;
    assert values[..|values| - 1] == AppendList(head, Quoted(saveColumns)) + ") VALUES";
    AppendList(values, Placeholders(1, |saveColumns|)) + ") RETURNING"
  }

  /** `BuildInsertQuery`: the table name unquoted, the save columns with one
      placeholder each, then `RETURNING` and the load columns. An empty list
      makes its truncation eat the character before it. */
  function BuildInsertQuery(table: string, loadColumns: seq<string>, saveColumns: seq<string>): (r: string)
    ensures |loadColumns| > 0 ==> r == InsertHead(table, saveColumns) + " " + JoinCommas(Quoted(loadColumns))
    ensures |loadColumns| == 0 ==> r == InsertHead(table, saveColumns)
  {
    var returning := InsertHead(table, saveColumns) + " ";
    assert returning[..|returning| - 1] == InsertHead(table, saveColumns);
    AppendList(returning, Quoted(loadColumns))
  }

  /** `BuildUpdateQuery`: the table name unquoted, one assignment per column
      numbered from 1, and no WHERE clause. */
  function BuildUpdateQuery(table: string, columns: seq<string>): (r: string)
    ensures |columns| > 0 ==> r == "UPDATE " + table + " SET " + JoinCommas(Assignments(columns, 1))
    ensures |columns| == 0 ==> r == "UPDATE " + table + " SET"
  {
    var prefix := "UPDATE " + table + " SET ";
    assert prefix[..|prefix| - 1] == "UPDATE " + table + " SET";
    AppendList(prefix, Assignments(columns, 1))
  }

  // Reading a list back: splitting at commas recovers the items.

  predicate NoComma(s: string) {
    forall i :: 0 <= i < |s| ==> s[i] != ','
  }

  /** Splits a string at every comma; the result is never empty. */
  function SplitCommas(s: string): (r: seq<string>)
    ensures |r| > 0
  {
    if |s| == 0 then [""]
    else
      var rest := SplitCommas(s[1..]);
      if s[0] == ',' then [""] + rest else [[s[0]] + rest[0]] + rest[1..]
  }

  lemma {:induction false} SplitPrefixWithoutComma(a: string, s: string)
    requires NoComma(a)
    ensures SplitCommas(a + s) == [a + SplitCommas(s)[0]] + SplitCommas(s)[1..]
  {
    if |a| > 0 {
      assert (a + s)[1..] == a[1..] + s;
      SplitPrefixWithoutComma(a[1..], s);
      assert [a[0]] + (a[1..] + SplitCommas(s)[0]) == a + SplitCommas(s)[0];
    } else {
      assert a + s == s;
      assert a + SplitCommas(s)[0] == SplitCommas(s)[0];
      assert SplitCommas(s) == [SplitCommas(s)[0]] + SplitCommas(s)[1..];
    }
  }

  /** Round trip: splitting a comma-joined list of comma-free items gives
      the items back. */
  lemma {:induction false} SplitJoinRoundTrip(items: seq<string>)
    requires |items| > 0
    requires forall k :: 0 <= k < |items| ==> NoComma(items[k])
    ensures SplitCommas(JoinCommas(items)) == items
  {
    if |items| == 1 {
      assert JoinCommas(items) == items[0] + "";
      SplitPrefixWithoutComma(items[0], "");
      assert SplitCommas("") == [""];
      assert items[0] + "" == items[0];
      assert items == [items[0]];
    } else {
      var rest := JoinCommas(items[1..]);
      SplitJoinRoundTrip(items[1..]);
      assert JoinCommas(items) == items[0] + ("," + rest);
      SplitPrefixWithoutComma(items[0], "," + rest);
      assert ("," + rest)[1..] == rest;
      assert SplitCommas("," + rest) == [""] + items[1..];
      assert items[0] + "" == items[0];
    }
  }

  /** Assignments of comma-free names are comma-free, so the SET list of an
      UPDATE splits back into its `"name"=$i` assignments. */
  lemma AssignmentsSplitBack(names: seq<string>, from: nat)
    requires |names| > 0
    requires forall k :: 0 <= k < |names| ==> NoComma(names[k])
    ensures SplitCommas(JoinCommas(Assignments(names, from))) == Assignments(names, from)
  {
    var a := Assignments(names, from);
    forall k | 0 <= k < |a| ensures NoComma(a[k]) {
      var d := Decimal(from + k);
      assert a[k] == "\"" + names[k] + "\"" + "=" + "$" + d;
      assert forall i :: 0 <= i < |d| ==> IsDigit(d[i]);
    }
    SplitJoinRoundTrip(a);
  }

  /** Quoted comma-free names and placeholders are comma-free, so the
      column list and the VALUES list of an INSERT split back into the
      quoted names and `$1 .. $n`. */
  lemma InsertListsSplitBack(columns: seq<string>)
    requires |columns| > 0
    requires forall k :: 0 <= k < |columns| ==> NoComma(columns[k])
    ensures SplitCommas(JoinCommas(Quoted(columns))) == Quoted(columns)
    ensures SplitCommas(JoinCommas(Placeholders(1, |columns|))) == Placeholders(1, |columns|)
  {
    forall k | 0 <= k < |columns| ensures NoComma(Quoted(columns)[k]) {
      assert Quoted(columns)[k] == "\"" + columns[k] + "\"";
    }
    SplitJoinRoundTrip(Quoted(columns));
    forall k | 0 <= k < |columns| ensures NoComma(Placeholders(1, |columns|)[k]) {
      var d := Decimal(1 + k);
      assert Placeholders(1, |columns|)[k] == "$" + d;
      assert forall i :: 0 <= i < |d| ==> IsDigit(d[i]);
    }
    SplitJoinRoundTrip(Placeholders(1, |columns|));
  }
}
