/**
 * The financial history (src/components/Historico/Historico.tsx): sales and
 * expenses grouped by the month of their date, newest month first, and the
 * overall totals.
 */
module Historico {
  import opened Text
  import opened Lists
  import opened Types

  /** `data.substring(0, 7)`: the `YYYY-MM` part of an ISO timestamp. */
  function MonthKey(data: Timestamp): (r: string)
    ensures |r| <= 7 && StartsWith(data, r)
    ensures |data| >= 7 ==> |r| == 7
    ensures |data| < 7 ==> r == data
  {
    Prefix(data, 7)
  }

  function SaleMonth(v: Sale): string { MonthKey(v.data) }
  function ExpenseMonth(d: Expense): string { MonthKey(d.data) }
  function SaleValue(v: Sale): real { v.valorTotal }
  function ExpenseValue(d: Expense): real { d.valor }

  /** Each key sorts strictly after the next one: a strictly descending list. */
  predicate Descending(ks: seq<string>) {
    forall i :: 0 <= i < |ks| - 1 ==> Before(ks[i + 1], ks[i])
  }

  /** Puts `k` into a descending list at its place. */
  function Insert(k: string, ks: seq<string>): (r: seq<string>)
    requires Descending(ks) && k !in ks
    ensures |r| == |ks| + 1
    ensures forall x :: x in r <==> x == k || x in ks
    ensures r[0] == k || r[0] == ks[0]
    ensures Descending(r)
  {
    if ks == [] then [k]
    else if Before(ks[0], k) then [k] + ks
    else
      BeforeTotal(k, ks[0]);
      var rest := Insert(k, ks[1..]);
      assert ks[1..] == [] || Before(ks[1], ks[0]);
      [ks[0]] + rest
  }

  /** `.sort((a, b) => b.localeCompare(a))` on distinct keys: newest month first. */
  function SortDescending(ks: seq<string>): (r: seq<string>)
    requires NoDup(ks)
    ensures |r| == |ks|
    ensures forall x :: x in r <==> x in ks
    ensures Descending(r)
  {
    if ks == [] then []
    else
      assert NoDup(ks[1..]) by {
        forall i, j | 0 <= i < j < |ks| - 1 ensures ks[1..][i] != ks[1..][j] {
          assert ks[1..][i] == ks[i + 1] && ks[1..][j] == ks[j + 1];
        }
      }
      assert ks[0] !in ks[1..] by {
        forall j | 0 <= j < |ks| - 1 ensures ks[1..][j] != ks[0] {
          assert ks[1..][j] == ks[j + 1];
        }
      }
      Insert(ks[0], SortDescending(ks[1..]))
  }

  /** A descending list is ordered between any two positions, not just neighbours, so no key repeats. */
  lemma {:induction false} DescendingOrdered(ks: seq<string>, i: nat, j: nat)
    requires Descending(ks) && i < j < |ks|
    ensures Before(ks[j], ks[i])
    decreases j - i
  {
    if j > i + 1 {
      DescendingOrdered(ks, i + 1, j);
      BeforeTransitive(ks[j], ks[i + 1], ks[i]);
    }
  }

  lemma DescendingNoDup(ks: seq<string>)
    requires Descending(ks)
    ensures NoDup(ks)
  {
    forall i, j | 0 <= i < j < |ks| ensures ks[i] != ks[j] {
      DescendingOrdered(ks, i, j);
      BeforeIrreflexive(ks[i]);
    }
  }

  /** Some sale or expense is dated in month `k`. */
  predicate Occurs(vendas: seq<Sale>, despesas: seq<Expense>, k: string) {
    || (exists i :: 0 <= i < |vendas| && SaleMonth(vendas[i]) == k)
    || (exists i :: 0 <= i < |despesas| && ExpenseMonth(despesas[i]) == k)
  }

  /**
   * The month key of every sale, then of every expense, in input order (the
   * order in which the `Map` meets them): exactly the months that occur.
   */
  function KeysInOrder(vendas: seq<Sale>, despesas: seq<Expense>): (r: seq<string>)
    ensures |r| == |vendas| + |despesas|
    ensures forall k :: k in r <==> Occurs(vendas, despesas, k)
    ensures forall i :: 0 <= i < |vendas| ==> r[i] == SaleMonth(vendas[i])
    ensures forall i :: 0 <= i < |despesas| ==> r[|vendas| + i] == ExpenseMonth(despesas[i])
  {
    var all := seq(|vendas|, i requires 0 <= i < |vendas| => SaleMonth(vendas[i]))
               + seq(|despesas|, i requires 0 <= i < |despesas| => ExpenseMonth(despesas[i]));
    forall k | k in all ensures Occurs(vendas, despesas, k) {
      var n :| 0 <= n < |all| && all[n] == k;
      if n >= |vendas| { assert ExpenseMonth(despesas[n - |vendas|]) == k; }
    }
    forall k | (exists i :: 0 <= i < |despesas| && ExpenseMonth(despesas[i]) == k) ensures k in all {
      var i :| 0 <= i < |despesas| && ExpenseMonth(despesas[i]) == k;
      assert all[|vendas| + i] == k;
    }
    forall k | (exists i :: 0 <= i < |vendas| && SaleMonth(vendas[i]) == k) ensures k in all {
      var i :| 0 <= i < |vendas| && SaleMonth(vendas[i]) == k;
      assert all[i] == k;
    }
    all
  }

  /** The month keys that occur, each once, newest first. */
  function MonthKeys(vendas: seq<Sale>, despesas: seq<Expense>): (r: seq<string>)
    ensures Descending(r) && NoDup(r)
    ensures forall k :: k in r <==> Occurs(vendas, despesas, k)
  {
    var all := KeysInOrder(vendas, despesas);
    var r := SortDescending(Distinct(all));
    DescendingNoDup(r);
    r
  }

  /** One row of `dadosPorMes`. */
  datatype MonthData = MonthData(
    mes: string,
    receitas: real,
    despesas: real,
    lucro: real,
    vendas: seq<Sale>,
    despesasDetalhes: seq<Expense>)

  /** The row of month `k`: its sales and expenses in input order, their sums, and the profit. */
  function Month(vendas: seq<Sale>, despesas: seq<Expense>, k: string): (m: MonthData)
    ensures m.mes == k && m.lucro == m.receitas - m.despesas
    ensures SubseqOf(m.vendas, vendas) && SubseqOf(m.despesasDetalhes, despesas)
    ensures forall v {:trigger multiset(m.vendas)[v]} ::
              multiset(m.vendas)[v] == if SaleMonth(v) == k then multiset(vendas)[v] else 0
    ensures forall d {:trigger multiset(m.despesasDetalhes)[d]} ::
              multiset(m.despesasDetalhes)[d] == if ExpenseMonth(d) == k then multiset(despesas)[d] else 0
    ensures forall v :: v in m.vendas <==> v in vendas && SaleMonth(v) == k
    ensures forall d :: d in m.despesasDetalhes <==> d in despesas && ExpenseMonth(d) == k
    ensures m.receitas == Total(m.vendas, SaleValue) && m.despesas == Total(m.despesasDetalhes, ExpenseValue)
  {
    var vs := Where(vendas, SaleMonth, k);
    var ds := Where(despesas, ExpenseMonth, k);
    var receitas := Total(vs, SaleValue);
    var gastos := Total(ds, ExpenseValue);
    MonthData(k, receitas, gastos, receitas - gastos, vs, ds)
  }

  function RowRevenue(m: MonthData): real { m.receitas }
  function RowExpense(m: MonthData): real { m.despesas }
  function RowProfit(m: MonthData): real { m.lucro }

  /**
   * One row per key of `ks`, in that order. The rows' revenues, expenses and
   * profits add up to the per-month sums of the sales and expenses under
   * those keys.
   */
  function MonthRows(vendas: seq<Sale>, despesas: seq<Expense>, ks: seq<string>): (r: seq<MonthData>)
    ensures |r| == |ks|
    ensures forall i :: 0 <= i < |ks| ==> r[i] == Month(vendas, despesas, ks[i])
    ensures Total(r, RowRevenue) == GroupedTotal(vendas, SaleMonth, SaleValue, ks)
    ensures Total(r, RowExpense) == GroupedTotal(despesas, ExpenseMonth, ExpenseValue, ks)
    ensures Total(r, RowProfit) == Total(r, RowRevenue) - Total(r, RowExpense)
  {
    if ks == [] then []
    else
      var rest := MonthRows(vendas, despesas, ks[1..]);
      assert ([Month(vendas, despesas, ks[0])] + rest)[1..] == rest;
      [Month(vendas, despesas, ks[0])] + rest
  }

  /** Row `i` is the row of key `i`. */
  lemma RowsKeyed(vendas: seq<Sale>, despesas: seq<Expense>, ks: seq<string>)
    ensures var r := MonthRows(vendas, despesas, ks);
            forall i :: 0 <= i < |r| ==> r[i].mes == ks[i] && r[i] == Month(vendas, despesas, r[i].mes)
  {
    var r := MonthRows(vendas, despesas, ks);
    forall i | 0 <= i < |r| ensures r[i].mes == ks[i] && r[i] == Month(vendas, despesas, r[i].mes) {
      assert r[i] == Month(vendas, despesas, ks[i]);
    }
  }

  /**
   * `dadosPorMes`: one row per month that has at least one sale or expense,
   * newest month first.
   */
  function ByMonth(vendas: seq<Sale>, despesas: seq<Expense>): (r: seq<MonthData>)
    ensures forall i :: 0 <= i < |r| - 1 ==> Before(r[i + 1].mes, r[i].mes)
    ensures forall i :: 0 <= i < |r| ==> Occurs(vendas, despesas, r[i].mes)
    ensures forall k :: Occurs(vendas, despesas, k) ==> exists i :: 0 <= i < |r| && r[i].mes == k
    ensures forall i :: 0 <= i < |r| ==> r[i] == Month(vendas, despesas, r[i].mes)
  {
    var ks := MonthKeys(vendas, despesas);
    var r := MonthRows(vendas, despesas, ks);
    RowsKeyed(vendas, despesas, ks);
    forall k | Occurs(vendas, despesas, k) ensures exists i :: 0 <= i < |r| && r[i].mes == k {
      var i :| 0 <= i < |ks| && ks[i] == k;
      assert r[i].mes == k;
    }
    r
  }

  /** "Receita Total", "Despesa Total" and "Lucro Total": over every sale and expense. */
  function OverallRevenue(vendas: seq<Sale>): real { Total(vendas, SaleValue) }
  function OverallExpense(despesas: seq<Expense>): real { Total(despesas, ExpenseValue) }
  function OverallProfit(vendas: seq<Sale>, despesas: seq<Expense>): real {
    OverallRevenue(vendas) - OverallExpense(despesas)
  }

  /**
   * Every sale and every expense falls in exactly one month: the monthly
   * revenues, expenses and profits add up to the overall ones.
   */
  lemma MonthsPartitionTotals(vendas: seq<Sale>, despesas: seq<Expense>)
    ensures Total(ByMonth(vendas, despesas), RowRevenue) == OverallRevenue(vendas)
    ensures Total(ByMonth(vendas, despesas), RowExpense) == OverallExpense(despesas)
    ensures Total(ByMonth(vendas, despesas), RowProfit) == OverallProfit(vendas, despesas)
  {
    var ks := MonthKeys(vendas, despesas);
    assert ByMonth(vendas, despesas) == MonthRows(vendas, despesas, ks);
    forall i | 0 <= i < |vendas| ensures SaleMonth(vendas[i]) in ks {
    }
    forall i | 0 <= i < |despesas| ensures ExpenseMonth(despesas[i]) in ks {
    }
    GroupedTotalPartition(vendas, SaleMonth, SaleValue, ks);
    GroupedTotalPartition(despesas, ExpenseMonth, ExpenseValue, ks);
  }

  /** A sale lands in the row of its own month and in no other row. */
  lemma SaleInOneMonth(vendas: seq<Sale>, despesas: seq<Expense>, v: Sale)
    requires v in vendas
    ensures var r := ByMonth(vendas, despesas);
            forall i :: 0 <= i < |r| ==> (v in r[i].vendas <==> r[i].mes == SaleMonth(v))
    ensures exists i :: 0 <= i < |ByMonth(vendas, despesas)| && ByMonth(vendas, despesas)[i].mes == SaleMonth(v)
  {
    var r := ByMonth(vendas, despesas);
    forall i | 0 <= i < |r| ensures v in r[i].vendas <==> r[i].mes == SaleMonth(v) {
      var m := Month(vendas, despesas, r[i].mes);
      assert r[i] == m;
      assert v in m.vendas <==> SaleMonth(v) == m.mes;
    }
    var n :| 0 <= n < |vendas| && vendas[n] == v;
    assert Occurs(vendas, despesas, SaleMonth(v)) by {
      assert SaleMonth(vendas[n]) == SaleMonth(v);
    }
  }
}
