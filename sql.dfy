/**
 * Parameterised WHERE clauses as the query builders assemble them: a list of
 * condition strings with `?` placeholders, a list of parameters bound to those
 * placeholders in order, and the conditions joined with " AND " (or "1=1" when
 * there are none).
 */
module Sql {
  import opened Options
  import opened Text

  /** A bound parameter: the builders pass strings and integers. */
  datatype Param = Str(s: string) | Int(i: int)

  /** One condition together with the parameters its placeholders take. */
  datatype Clause = Clause(sql: string, args: seq<Param>)

  /** A finished WHERE clause and its parameter list. */
  datatype Query = Query(where: string, params: seq<Param>)

  /** The condition has exactly one placeholder per parameter. */
  predicate Balanced(c: Clause) {
    CountChar(c.sql, '?') == |c.args|
  }

  predicate AllBalanced(cs: seq<Clause>) {
    forall i :: 0 <= i < |cs| ==> Balanced(cs[i])
  }

  /** Every condition is balanced, and none starts with '1' (so none reads as "1=1"). */
  predicate Proper(cs: seq<Clause>) {
    forall i :: 0 <= i < |cs| ==> Balanced(cs[i]) && |cs[i].sql| > 0 && cs[i].sql[0] != '1'
  }

  lemma ProperConcat(a: seq<Clause>, b: seq<Clause>)
    requires Proper(a) && Proper(b)
    ensures Proper(a + b)
  {
    forall i | 0 <= i < |a + b|
      ensures Balanced((a + b)[i]) && |(a + b)[i].sql| > 0 && (a + b)[i].sql[0] != '1'
    {
      if i >= |a| {
        assert (a + b)[i] == b[i - |a|];
      }
    }
  }

  lemma ProperConcat4(a: seq<Clause>, b: seq<Clause>, c: seq<Clause>, d: seq<Clause>)
    requires Proper(a) && Proper(b) && Proper(c) && Proper(d)
    ensures Proper(a + b + c + d)
  {
    ProperConcat(a, b);
    ProperConcat(a + b, c);
    ProperConcat(a + b + c, d);
  }

  /** Strings bound as parameters, in order. */
  function Strs(xs: seq<string>): (r: seq<Param>)
    ensures |r| == |xs|
    ensures forall i :: 0 <= i < |xs| ==> r[i] == Str(xs[i])
  {
    if xs == [] then [] else [Str(xs[0])] + Strs(xs[1..])
  }

  /** Iterating over a Python str: one single-character string per character. */
  function Chars(s: string): (r: seq<string>)
    ensures |r| == |s|
    ensures forall i :: 0 <= i < |s| ==> r[i] == [s[i]]
  {
    if s == [] then [] else [[s[0]]] + Chars(s[1..])
  }

  /** `",".join("?" * n)`: n placeholders separated by commas. */
  function Placeholders(n: nat): string {
    Join(Chars(Repeat('?', n)), ",")
  }

  lemma {:induction false} CountCharAbsent(s: string, c: char)
    requires c !in s
    ensures CountChar(s, c) == 0
  {
    if s != [] {
      assert s[|s| - 1] != c;
      CountCharAbsent(s[..|s| - 1], c);
    }
  }

  lemma {:induction false} CountCharAllSingles(n: nat)
    ensures CountCharAll(Chars(Repeat('?', n)), '?') == n
  {
    if n > 0 {
      var parts := Chars(Repeat('?', n));
      assert parts[..n - 1] == Chars(Repeat('?', n - 1));
      CountCharAllSingles(n - 1);
      assert parts[n - 1] == "?";
      QuestionMark();
    }
  }

  /** The placeholder list holds exactly n placeholders. */
  lemma PlaceholdersCount(n: nat)
    ensures CountChar(Placeholders(n), '?') == n
  {
    CountCharAbsent(",", '?');
    CountCharJoin(Chars(Repeat('?', n)), ",", '?');
    CountCharAllSingles(n);
  }

  lemma QuestionMark()
    ensures CountChar("?", '?') == 1
  {
    assert "?"[..0] == [];
  }

  lemma CountCharConcat3(a: string, b: string, c: string, ch: char)
    ensures CountChar(a + b + c, ch) == CountChar(a, ch) + CountChar(b, ch) + CountChar(c, ch)
  {
    CountCharConcat(a, b, ch);
    CountCharConcat(a + b, c, ch);
  }

  /** `column IN (?,…,?)` with one placeholder per value. */
  function InList(column: string, values: seq<Param>): (c: Clause)
    ensures c.args == values
    ensures column + " IN (" <= c.sql
  {
    Clause(column + " IN (" + Placeholders(|values|) + ")", values)
  }

  lemma InListBalanced(column: string, values: seq<Param>)
    requires '?' !in column
    ensures Balanced(InList(column, values))
  {
    PlaceholdersCount(|values|);
    CountCharAbsent(column + " IN (", '?');
    CountCharAbsent(")", '?');
    CountCharConcat3(column + " IN (", Placeholders(|values|), ")", '?');
  }

  /** `column op ?` with its single parameter. */
  function Compare(column: string, op: string, arg: Param): (c: Clause)
    ensures c.args == [arg]
    ensures column <= c.sql
  {
    Clause(column + " " + op + " ?", [arg])
  }

  lemma CompareBalanced(column: string, op: string, arg: Param)
    requires '?' !in column && '?' !in op
    ensures Balanced(Compare(column, op, arg))
  {
    CountCharAbsent(column + " " + op + " ", '?');
    CountCharConcat(column + " " + op + " ", "?", '?');
    QuestionMark();
    assert column + " " + op + " ?" == column + " " + op + " " + "?";
  }

  /** A condition without parameters. */
  function Fixed(sql: string): (c: Clause)
    requires '?' !in sql
    ensures Balanced(c)
    ensures c.args == []
  {
    CountCharAbsent(sql, '?');
    Clause(sql, [])
  }

  /** The condition strings, in order. */
  function Conditions(cs: seq<Clause>): (r: seq<string>)
    ensures |r| == |cs|
    ensures forall i :: 0 <= i < |cs| ==> r[i] == cs[i].sql
  {
    if cs == [] then [] else Conditions(cs[..|cs| - 1]) + [cs[|cs| - 1].sql]
  }

  /** All parameters, condition by condition. */
  function Args(cs: seq<Clause>): seq<Param> {
    if cs == [] then [] else Args(cs[..|cs| - 1]) + cs[|cs| - 1].args
  }

  /** The parameters of two runs of clauses follow each other. */
  lemma {:induction false} ArgsConcat(a: seq<Clause>, b: seq<Clause>)
    ensures Args(a + b) == Args(a) + Args(b)
  {
    if b != [] {
      assert (a + b)[..|a + b| - 1] == a + b[..|b| - 1];
      ArgsConcat(a, b[..|b| - 1]);
    } else {
      assert a + b == a;
    }
  }

  /** `" AND ".join(conditions) if conditions else "1=1"` */
  function WhereText(conditions: seq<string>): string {
    if conditions == [] then "1=1" else Join(conditions, " AND ")
  }

  function Render(cs: seq<Clause>): (r: Query)
    ensures cs == [] ==> r.where == "1=1" && r.params == []
    ensures cs != [] ==> cs[0].sql <= r.where && cs[0].args <= r.params
  {
    if cs == [] then Query("1=1", [])
    else
      JoinHeadPart(Conditions(cs), " AND ");
      ArgsHead(cs);
      Query(WhereText(Conditions(cs)), Args(cs))
  }

  /** The builders' lists after appending the clauses `cs`, one after another. */
  ghost predicate Holds(conditions: seq<string>, params: seq<Param>, cs: seq<Clause>) {
    conditions == Conditions(cs) && params == Args(cs)
  }

  /** Appending one more condition and its parameters keeps the lists in step. */
  lemma Extend(conditions: seq<string>, params: seq<Param>, cs: seq<Clause>, c: Clause)
    requires Holds(conditions, params, cs)
    ensures Holds(conditions + [c.sql], params + c.args, cs + [c])
  {
    assert (cs + [c])[..|cs|] == cs;
  }

  /** Appending four groups one after another is appending their concatenation. */
  lemma Regroup(cs: seq<Clause>, a: seq<Clause>, b: seq<Clause>, c: seq<Clause>, d: seq<Clause>)
    ensures cs + a + b + c + d == cs + (a + b + c + d)
  {
  }

  lemma {:induction false} CountArgs(cs: seq<Clause>)
    requires AllBalanced(cs)
    ensures CountCharAll(Conditions(cs), '?') == |Args(cs)|
  {
    if cs != [] {
      var init := cs[..|cs| - 1];
      assert AllBalanced(init) by {
        forall i | 0 <= i < |init| ensures Balanced(init[i]) {
          assert init[i] == cs[i];
        }
      }
      CountArgs(init);
      assert Balanced(cs[|cs| - 1]);
      assert Conditions(cs) == Conditions(init) + [cs[|cs| - 1].sql];
      CountCharAllAppend(Conditions(init), cs[|cs| - 1].sql, '?');
    }
  }

  /** When every condition is balanced, the WHERE clause has one placeholder per parameter. */
  lemma PlaceholdersMatch(cs: seq<Clause>)
    requires AllBalanced(cs)
    ensures CountChar(Render(cs).where, '?') == |Render(cs).params|
  {
    CountArgs(cs);
    if cs != [] {
      CountCharAbsent(" AND ", '?');
      CountCharJoin(Conditions(cs), " AND ", '?');
    } else {
      CountCharAbsent("1=1", '?');
    }
  }

  lemma {:induction false} JoinHead(parts: seq<string>, sep: string)
    requires |parts| > 0 && |parts[0]| > 0
    ensures |Join(parts, sep)| > 0 && Join(parts, sep)[0] == parts[0][0]
  {
    if |parts| > 1 {
      var init := parts[..|parts| - 1];
      JoinHead(init, sep);
      assert Join(parts, sep) == Join(init, sep) + sep + parts[|parts| - 1];
    }
  }

  /**
   * "1=1" stands for "no condition": it is the clause exactly when nothing was
   * added, provided no condition itself starts with '1'.
   */
  lemma NoConditions(cs: seq<Clause>)
    requires Proper(cs)
    ensures Render(cs).where == "1=1" <==> cs == []
    ensures cs == [] ==> Render(cs).params == []
  {
    if cs != [] {
      JoinHead(Conditions(cs), " AND ");
    }
  }

  /** The WHERE clause starts with the first condition, and the parameters with its arguments. */
  lemma WhereStartsWith(head: string, cs: seq<Clause>)
    requires |cs| > 0 && head <= cs[0].sql
    ensures head <= Render(cs).where
  {
    JoinHeadPart(Conditions(cs), " AND ");
    PrefixTransitive(head, cs[0].sql, Render(cs).where);
  }

  lemma PrefixTransitive(a: string, b: string, c: string)
    requires a <= b && b <= c
    ensures a <= c
  {
    assert c[..|a|] == b[..|a|];
  }

  lemma {:induction false} JoinHeadPart(parts: seq<string>, sep: string)
    requires |parts| > 0
    ensures parts[0] <= Join(parts, sep)
  {
    if |parts| > 1 {
      var init := parts[..|parts| - 1];
      JoinHeadPart(init, sep);
      assert Join(parts, sep) == Join(init, sep) + sep + parts[|parts| - 1];
    }
  }

  lemma {:induction false} ArgsHead(cs: seq<Clause>)
    requires |cs| > 0
    ensures cs[0].args <= Args(cs)
  {
    if |cs| > 1 {
      ArgsHead(cs[..|cs| - 1]);
    }
  }

  // ---------------------------------------------------------------------------
  // The optional conditions the builders add, and the methods that add them
  // ---------------------------------------------------------------------------

  /** A column name that is a proper start for a condition. */
  predicate ColumnName(column: string) {
    '?' !in column && |column| > 0 && column[0] != '1'
  }

  function IfAny(column: string, values: seq<string>): (r: seq<Clause>)
    ensures |r| == if |values| > 0 then 1 else 0
  {
    if |values| > 0 then [InList(column, Strs(values))] else []
  }

  function IfSome(column: string, op: string, value: Option<int>): (r: seq<Clause>)
    ensures |r| == if value.Some? then 1 else 0
  {
    if value.Some? then [Compare(column, op, Int(value.value))] else []
  }

  function IfTruthy(column: string, op: string, value: Option<string>, arg: Param): (r: seq<Clause>)
    ensures |r| == if Truthy(value) then 1 else 0
  {
    if Truthy(value) then [Compare(column, op, arg)] else []
  }

  lemma IfAnyProper(column: string, values: seq<string>)
    requires ColumnName(column)
    ensures Proper(IfAny(column, values))
  {
    InListBalanced(column, Strs(values));
  }

  lemma IfSomeProper(column: string, op: string, value: Option<int>)
    requires ColumnName(column) && '?' !in op
    ensures Proper(IfSome(column, op, value))
  {
    if value.Some? {
      CompareBalanced(column, op, Int(value.value));
    }
  }

  lemma IfTruthyProper(column: string, op: string, value: Option<string>, arg: Param)
    requires ColumnName(column) && '?' !in op
    ensures Proper(IfTruthy(column, op, value, arg))
  {
    CompareBalanced(column, op, arg);
  }

  /** `if value: conditions.append(f"{column} {op} ?"); params.append(arg)` */
  method AddIfTruthy(conditions: seq<string>, params: seq<Param>, ghost added: seq<Clause>,
                     column: string, op: string, value: Option<string>, arg: Param)
    returns (conditions': seq<string>, params': seq<Param>)
    requires Holds(conditions, params, added)
    ensures Holds(conditions', params', added + IfTruthy(column, op, value, arg))
  {
    conditions', params' := conditions, params;
    if Truthy(value) {
      Extend(conditions, params, added, Compare(column, op, arg));
      conditions' := conditions + [column + " " + op + " ?"];
      params' := params + [arg];
    } else {
      assert added + [] == added;
    }
  }

  /** `if value is not None: conditions.append(f"{column} {op} ?"); params.append(value)` */
  method AddIfSome(conditions: seq<string>, params: seq<Param>, ghost added: seq<Clause>,
                   column: string, op: string, value: Option<int>)
    returns (conditions': seq<string>, params': seq<Param>)
    requires Holds(conditions, params, added)
    ensures Holds(conditions', params', added + IfSome(column, op, value))
  {
    conditions', params' := conditions, params;
    if value.Some? {
      Extend(conditions, params, added, Compare(column, op, Int(value.value)));
      conditions' := conditions + [column + " " + op + " ?"];
      params' := params + [Int(value.value)];
    } else {
      assert added + [] == added;
    }
  }

  /** `if values: conditions.append(f"{column} IN (…)"); params.extend(values)` */
  method AddInList(conditions: seq<string>, params: seq<Param>, ghost added: seq<Clause>,
                   column: string, values: seq<string>)
    returns (conditions': seq<string>, params': seq<Param>)
    requires Holds(conditions, params, added)
    ensures Holds(conditions', params', added + IfAny(column, values))
  {
    conditions', params' := conditions, params;
    if |values| > 0 {
      Extend(conditions, params, added, InList(column, Strs(values)));
      conditions' := conditions + [column + " IN (" + Placeholders(|values|) + ")"];
      params' := params + Strs(values);
    } else {
      assert added + [] == added;
    }
  }
}
