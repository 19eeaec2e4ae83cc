/**
 * The dashboard (src/components/Dashboard/Dashboard.tsx): the current
 * month's revenue, expenses and profit, revenue per product name and
 * expenses per type name.
 */
module Dashboard {
  import opened Text
  import opened Lists
  import opened Types
  import opened Historico

  /** The sales dated in month `mes` (`v.data.startsWith(mesAtual)`), in order. */
  function MonthSales(vs: seq<Sale>, mes: string): (r: seq<Sale>)
    ensures SubseqOf(r, vs)
    ensures forall v :: multiset(r)[v] == if StartsWith(v.data, mes) then multiset(vs)[v] else 0
    ensures forall v :: v in r <==> v in vs && StartsWith(v.data, mes)
  {
    Filter(vs, (v: Sale) => StartsWith(v.data, mes))
  }

  /** The expenses dated in month `mes`, in order. */
  function MonthExpenses(ds: seq<Expense>, mes: string): (r: seq<Expense>)
    ensures SubseqOf(r, ds)
    ensures forall d :: multiset(r)[d] == if StartsWith(d.data, mes) then multiset(ds)[d] else 0
    ensures forall d :: d in r <==> d in ds && StartsWith(d.data, mes)
  {
    Filter(ds, (d: Expense) => StartsWith(d.data, mes))
  }

  /** `receitaTotal`, `despesaTotal` and `lucroTotal` for month `mes`. */
  function Revenue(vs: seq<Sale>, mes: string): real { Total(MonthSales(vs, mes), SaleValue) }
  function Expenses(ds: seq<Expense>, mes: string): real { Total(MonthExpenses(ds, mes), ExpenseValue) }
  function Profit(vs: seq<Sale>, ds: seq<Expense>, mes: string): real { Revenue(vs, mes) - Expenses(ds, mes) }

  /** For a full `YYYY-MM` key, starting with it is having it as month key. */
  lemma StartsWithMonth(data: Timestamp, mes: string)
    requires |mes| == 7
    ensures StartsWith(data, mes) <==> MonthKey(data) == mes
  {
  }

  /** Filtering by a prefix test and selecting by month key keep the same entries when the key is a full month. */
  lemma {:induction false} SalesFiltersAgree(vs: seq<Sale>, mes: string)
    requires |mes| == 7
    ensures MonthSales(vs, mes) == Where(vs, SaleMonth, mes)
    decreases |vs|
  {
    if vs != [] {
      StartsWithMonth(vs[0].data, mes);
      SalesFiltersAgree(vs[1..], mes);
    }
  }

  lemma {:induction false} ExpenseFiltersAgree(ds: seq<Expense>, mes: string)
    requires |mes| == 7
    ensures MonthExpenses(ds, mes) == Where(ds, ExpenseMonth, mes)
    decreases |ds|
  {
    if ds != [] {
      StartsWithMonth(ds[0].data, mes);
      ExpenseFiltersAgree(ds[1..], mes);
    }
  }

  /** The dashboard's month figures are the financial history's row for that month. */
  lemma DashboardMatchesHistory(vs: seq<Sale>, ds: seq<Expense>, mes: string)
    requires |mes| == 7
    ensures var m := Month(vs, ds, mes);
            Revenue(vs, mes) == m.receitas && Expenses(ds, mes) == m.despesas && Profit(vs, ds, mes) == m.lucro
  {
    SalesFiltersAgree(vs, mes);
    ExpenseFiltersAgree(ds, mes);
  }

  /** One slice of a chart: a name and its summed value. */
  datatype Group = Group(nome: string, valor: real)

  function GroupValue(g: Group): real { g.valor }

  /** The key of every entry, in order (`xs.map(key)`). */
  function KeysOf<T>(xs: seq<T>, key: T -> string): (r: seq<string>)
    ensures |r| == |xs|
    ensures forall i :: 0 <= i < |xs| ==> r[i] == key(xs[i])
  {
    seq(|xs|, i requires 0 <= i < |xs| => key(xs[i]))
  }

  /**
   * One group per name of `ks`, in the order of `ks`, valued at the total of
   * the entries carrying that name. The last clause only follows the
   * recursion of `GroupedTotal`; that the slices add up to the entries they
   * cover is `Lists.GroupedTotalPartition`, and for the expense chart
   * `ExpenseGroupsSum`.
   */
  function GroupsOf<T(==,!new)>(xs: seq<T>, key: T -> string, f: T -> real, ks: seq<string>): (r: seq<Group>)
    ensures KeysOf(r, GroupName) == ks
    ensures forall i :: 0 <= i < |ks| ==> r[i].valor == Total(Where(xs, key, ks[i]), f)
    ensures Total(r, GroupValue) == GroupedTotal(xs, key, f, ks)
  {
    if ks == [] then []
    else
      var g := Group(ks[0], Total(Where(xs, key, ks[0]), f));
      var rest := GroupsOf(xs, key, f, ks[1..]);
      assert ([g] + rest)[1..] == rest;
      assert KeysOf([g] + rest, GroupName) == [ks[0]] + KeysOf(rest, GroupName);
      assert ks == [ks[0]] + ks[1..];
      [g] + rest
  }

  function SaleName(v: Sale): string { v.nomeProduto }
  function ExpenseTypeName(d: Expense): string { d.nomeTipo }
  function GroupName(g: Group): string { g.nome }

  /** A group is among `GroupsOf(.., ks)` exactly when its name is in `ks` and it carries that name's total. */
  lemma GroupsMembership<T(!new)>(xs: seq<T>, key: T -> string, f: T -> real, ks: seq<string>, g: Group)
    ensures g in GroupsOf(xs, key, f, ks) <==> g.nome in ks && g.valor == Total(Where(xs, key, g.nome), f)
  {
    var gs := GroupsOf(xs, key, f, ks);
    assert |gs| == |ks| && forall i :: 0 <= i < |ks| ==> gs[i].nome == KeysOf(gs, GroupName)[i];
    if g.nome in ks && g.valor == Total(Where(xs, key, g.nome), f) {
      var i :| 0 <= i < |ks| && ks[i] == g.nome;
      assert gs[i] == g;
    }
    if g in gs {
      var i :| 0 <= i < |gs| && gs[i] == g;
      assert KeysOf(gs, GroupName)[i] == g.nome;
    }
  }

  /** A name whose entries in `xs` add up to more than zero. */
  function PositiveTotal<T(==,!new)>(xs: seq<T>, key: T -> string, f: T -> real): string -> bool {
    n => Total(Where(xs, key, n), f) > 0.0
  }

  function Positive(g: Group): bool { g.valor > 0.0 }

  /** Dropping the slices worth nothing or less keeps the names whose total is positive, in order. */
  lemma {:induction false} PositiveGroupsKeys<T(!new)>(xs: seq<T>, key: T -> string, f: T -> real, ks: seq<string>)
    ensures KeysOf(Filter(GroupsOf(xs, key, f, ks), Positive), GroupName) == Filter(ks, PositiveTotal(xs, key, f))
    decreases |ks|
  {
    if ks != [] {
      var g := Group(ks[0], Total(Where(xs, key, ks[0]), f));
      var rest := GroupsOf(xs, key, f, ks[1..]);
      var gs := GroupsOf(xs, key, f, ks);
      assert gs == [g] + rest;
      assert Positive(g) == PositiveTotal(xs, key, f)(ks[0]);
      PositiveGroupsKeys(xs, key, f, ks[1..]);
      FilterCons(g, rest, Positive);
      FilterCons(ks[0], ks[1..], PositiveTotal(xs, key, f));
      assert ks == [ks[0]] + ks[1..];
      var tail := Filter(rest, Positive);
      if Positive(g) {
        calc {
          KeysOf(Filter(gs, Positive), GroupName);
          KeysOf([g] + tail, GroupName);
          { KeysOfCons(g, tail); }
          [ks[0]] + KeysOf(tail, GroupName);
          Filter(ks, PositiveTotal(xs, key, f));
        }
      } else {
        assert Filter(gs, Positive) == tail;
      }
    }
  }

  lemma KeysOfCons(g: Group, gs: seq<Group>)
    ensures KeysOf([g] + gs, GroupName) == [g.nome] + KeysOf(gs, GroupName)
  {
  }

  /** A list without repeats stays without repeats once filtered. */
  lemma {:induction false} FilterNoDup<T(!new)>(xs: seq<T>, p: T -> bool)
    requires NoDup(xs)
    ensures NoDup(Filter(xs, p))
  {
    var r := Filter(xs, p);
    forall i, j | 0 <= i < j < |r| ensures r[i] != r[j] {
      if r[i] == r[j] {
        assert multiset(r)[r[i]] >= 2 by {
          assert r == r[..j] + [r[j]] + r[j + 1..];
          assert r[i] in r[..j];
        }
        NoDupOnce(xs, r[i]);
        assert false;
      }
    }
  }

  /** In a list without repeats every value occurs at most once. */
  lemma {:induction false} NoDupOnce<T>(xs: seq<T>, x: T)
    requires NoDup(xs)
    ensures multiset(xs)[x] <= 1
    decreases |xs|
  {
    if xs != [] {
      assert xs == [xs[0]] + xs[1..];
      assert NoDup(xs[1..]) by {
        forall i, j | 0 <= i < j < |xs| - 1 ensures xs[1..][i] != xs[1..][j] {
          assert xs[1..][i] == xs[i + 1] && xs[1..][j] == xs[j + 1];
        }
      }
      NoDupOnce(xs[1..], x);
      if xs[0] == x {
        assert x !in xs[1..] by {
          forall j | 0 <= j < |xs| - 1 ensures xs[1..][j] != x {
            assert xs[1..][j] == xs[j + 1];
          }
        }
      }
    }
  }

  /**
   * `receitasPorProduto`: the month's sales grouped by product name, names in
   * order of first sale, groups worth nothing or less dropped.
   */
  function RevenueByProduct(vs: seq<Sale>, mes: string): (r: seq<Group>)
    ensures KeysOf(r, GroupName)
            == Filter(Distinct(KeysOf(MonthSales(vs, mes), SaleName)), PositiveTotal(MonthSales(vs, mes), SaleName, SaleValue))
    ensures NoDup(KeysOf(r, GroupName))
    ensures forall g :: g in r <==>
              && g.nome in KeysOf(MonthSales(vs, mes), SaleName)
              && g.valor == Total(Where(MonthSales(vs, mes), SaleName, g.nome), SaleValue)
              && g.valor > 0.0
  {
    var ms := MonthSales(vs, mes);
    var names := Distinct(KeysOf(ms, SaleName));
    var gs := GroupsOf(ms, SaleName, SaleValue, names);
    forall g ensures g in gs <==> g.nome in names && g.valor == Total(Where(ms, SaleName, g.nome), SaleValue) {
      GroupsMembership(ms, SaleName, SaleValue, names, g);
    }
    PositiveGroupsKeys(ms, SaleName, SaleValue, names);
    FilterNoDup(names, PositiveTotal(ms, SaleName, SaleValue));
    Filter(gs, Positive)
  }

  /** `despesasPorTipo`: the month's expenses grouped by type name, names in order of first expense. */
  function ExpensesByType(ds: seq<Expense>, mes: string): (r: seq<Group>)
    ensures KeysOf(r, GroupName) == Distinct(KeysOf(MonthExpenses(ds, mes), ExpenseTypeName))
    ensures NoDup(KeysOf(r, GroupName))
    ensures forall n :: n in KeysOf(r, GroupName) <==> n in KeysOf(MonthExpenses(ds, mes), ExpenseTypeName)
    ensures forall i :: 0 <= i < |r| ==>
              r[i].valor == Total(Where(MonthExpenses(ds, mes), ExpenseTypeName, r[i].nome), ExpenseValue)
  {
    var md := MonthExpenses(ds, mes);
    var names := Distinct(KeysOf(md, ExpenseTypeName));
    var r := GroupsOf(md, ExpenseTypeName, ExpenseValue, names);
    assert forall i :: 0 <= i < |r| ==> r[i].nome == KeysOf(r, GroupName)[i];
    r
  }

  /** Nothing is filtered out of the expense chart: its slices add up to the month's expenses. */
  lemma ExpenseGroupsSum(ds: seq<Expense>, mes: string)
    ensures Total(ExpensesByType(ds, mes), GroupValue) == Expenses(ds, mes)
  {
    var md := MonthExpenses(ds, mes);
    var names := Distinct(KeysOf(md, ExpenseTypeName));
    assert ExpensesByType(ds, mes) == GroupsOf(md, ExpenseTypeName, ExpenseValue, names);
    forall i | 0 <= i < |md| ensures ExpenseTypeName(md[i]) in names {
      assert KeysOf(md, ExpenseTypeName)[i] == ExpenseTypeName(md[i]);
    }
    GroupedTotalPartition(md, ExpenseTypeName, ExpenseValue, names);
  }

  /** A list of positive values that is not empty adds up to more than zero. */
  lemma {:induction false} TotalPositive<T>(xs: seq<T>, f: T -> real)
    requires xs != [] && forall i :: 0 <= i < |xs| ==> f(xs[i]) > 0.0
    ensures Total(xs, f) > 0.0
  {
    assert Total(xs[1..], f) >= 0.0;
  }

  /**
   * When every sale of the month is worth more than zero no slice is dropped
   * from the revenue chart, and its slices add up to the month's revenue.
   */
  lemma RevenueGroupsSum(vs: seq<Sale>, mes: string)
    requires forall v :: v in MonthSales(vs, mes) ==> v.valorTotal > 0.0
    ensures Total(RevenueByProduct(vs, mes), GroupValue) == Revenue(vs, mes)
  {
    var ms := MonthSales(vs, mes);
    var names := Distinct(KeysOf(ms, SaleName));
    var gs := GroupsOf(ms, SaleName, SaleValue, names);
    NothingDropped(vs, mes);
    assert Total(gs, GroupValue) == GroupedTotal(ms, SaleName, SaleValue, names);
    EveryNameGrouped(ms, names);
  }

  /** Every sale's name is among the distinct names, so grouping by them loses nothing. */
  lemma EveryNameGrouped(ms: seq<Sale>, names: seq<string>)
    requires names == Distinct(KeysOf(ms, SaleName))
    ensures GroupedTotal(ms, SaleName, SaleValue, names) == Total(ms, SaleValue)
  {
    forall i | 0 <= i < |ms| ensures SaleName(ms[i]) in names {
      assert KeysOf(ms, SaleName)[i] == SaleName(ms[i]);
    }
    GroupedTotalPartition(ms, SaleName, SaleValue, names);
  }

  /** With every sale of the month worth more than zero, the revenue chart keeps a slice for every name. */
  lemma NothingDropped(vs: seq<Sale>, mes: string)
    requires forall v :: v in MonthSales(vs, mes) ==> v.valorTotal > 0.0
    ensures var ms := MonthSales(vs, mes);
            RevenueByProduct(vs, mes) == GroupsOf(ms, SaleName, SaleValue, Distinct(KeysOf(ms, SaleName)))
  {
    var ms := MonthSales(vs, mes);
    var names := Distinct(KeysOf(ms, SaleName));
    var gs := GroupsOf(ms, SaleName, SaleValue, names);
    forall i | 0 <= i < |gs| ensures Positive(gs[i]) {
      NamedGroupPositive(ms, names[i]);
    }
  }

  /** A name some sale carries, among sales all worth more than zero, has a positive total. */
  lemma NamedGroupPositive(ms: seq<Sale>, n: string)
    requires forall v :: v in ms ==> v.valorTotal > 0.0
    requires n in KeysOf(ms, SaleName)
    ensures Total(Where(ms, SaleName, n), SaleValue) > 0.0
  {
    var k :| 0 <= k < |ms| && KeysOf(ms, SaleName)[k] == n;
    var w := Where(ms, SaleName, n);
    assert ms[k] in w;
    forall j | 0 <= j < |w| ensures SaleValue(w[j]) > 0.0 {
      assert w[j] in w;
    }
    TotalPositive(w, SaleValue);
  }

  /**
   * Grouping is by the copied product name, not the product id: two sales of
   * the month with the same name but different product ids make one slice,
   * worth both sales together.
   */
  lemma SameNameOneGroup(a: Sale, b: Sale, mes: string)
    requires StartsWith(a.data, mes) && StartsWith(b.data, mes)
    requires a.nomeProduto == b.nomeProduto && a.produtoId != b.produtoId
    requires a.valorTotal > 0.0 && b.valorTotal > 0.0
    ensures RevenueByProduct([a, b], mes) == [Group(a.nomeProduto, a.valorTotal + b.valorTotal)]
  {
    var n := a.nomeProduto;
    var ms := MonthSales([a, b], mes);
    var g := Group(n, a.valorTotal + b.valorTotal);
    BothInMonth(a, b, mes);
    var names := Distinct(KeysOf(ms, SaleName));
    assert names == [n] by {
      assert KeysOf(ms, SaleName) == [n, n];
      OneName(n);
    }
    var gs := GroupsOf(ms, SaleName, SaleValue, names);
    assert gs == [g] by {
      SingleGroup(ms, SaleName, SaleValue, n);
      SameNameSlice(ms, a, b);
    }
    assert Filter(gs, Positive) == gs by {
      assert Positive(gs[0]);
    }
  }

  /** One name makes one slice, worth the total of that name's entries. */
  lemma SingleGroup<T(!new)>(xs: seq<T>, key: T -> string, f: T -> real, k: string)
    ensures GroupsOf(xs, key, f, [k]) == [Group(k, Total(Where(xs, key, k), f))]
  {
    assert [k][1..] == [];
  }

  /** Two sales dated in the month are that month's sales. */
  lemma BothInMonth(a: Sale, b: Sale, mes: string)
    requires StartsWith(a.data, mes) && StartsWith(b.data, mes)
    ensures MonthSales([a, b], mes) == [a, b]
  {
  }

  /** A name listed twice is one name once listed. */
  lemma OneName(n: string)
    ensures Distinct([n, n]) == [n]
  {
    assert [n][..0] == [];
    assert Distinct([n]) == [n];
    assert [n, n][..1] == [n];
  }

  /** Two sales of one name are that name's entries, and its value is their sum. */
  lemma SameNameSlice(ms: seq<Sale>, a: Sale, b: Sale)
    requires ms == [a, b] && a.nomeProduto == b.nomeProduto
    ensures Total(Where(ms, SaleName, a.nomeProduto), SaleValue) == a.valorTotal + b.valorTotal
  {
    assert Where([a, b], SaleName, a.nomeProduto) == [a, b] by {
      assert [a, b][1..] == [b];
      assert [b][1..] == [];
      assert Where([b], SaleName, a.nomeProduto) == [b];
    }
    assert Total([a, b], SaleValue) == a.valorTotal + b.valorTotal by {
      assert [a, b][1..] == [b];
      assert [b][1..] == [];
      assert Total([b], SaleValue) == b.valorTotal;
    }
  }
}
