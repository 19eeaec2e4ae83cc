/**
 * Worked examples: one product's life through registration, a sale, a stock
 * addition and an edit of the sale; and the scheduler's due check around a
 * seven-day interval.
 */
module Scenarios {
  import opened Wrappers
  import opened Types
  import opened Produtos
  import opened Vendas
  import opened Scheduler

  /**
   * "Mug-A" at 10.00 with 5 in stock: registering it records 0 -> 5; selling 2
   * leaves 3 in stock and 2 sold for a 20.00 sale; adding 10 records 3 -> 13;
   * editing the sale to 5 units reverses the 2 and applies the 5, leaving 10
   * in stock and 5 sold.
   */
  lemma MugLifecycle()
    ensures var r1 := RegisterProduct(Inventory([], []), "Mug-A", Typed(Some(10.0)), Typed(Some(5)), "p1", "h1", "t1");
            && r1.Ok?
            && r1.value.historico[0].estoqueAnterior == 0 && r1.value.historico[0].estoqueNovo == 5
            && var p := r1.value.produtos[0];
            && var s := Summarize([CartLine(p, 2)]);
            && s.Ok?
            && var led := Confirm(Ledger(r1.value.produtos, []), Some(s.value), ["v1"], "t2");
            && led.vendas[0].valorTotal == 20.0
            && led.produtos[0].quantidadeEstoque == 3 && led.produtos[0].quantidadeVendida == 2
            && var r3 := AddStock(Inventory(led.produtos, r1.value.historico), "p1", Typed(Some(10)), "h2", "t3");
            && r3.Ok?
            && r3.value.historico[1].estoqueAnterior == 3 && r3.value.historico[1].estoqueNovo == 13
            && var r4 := EditSale(Ledger(r3.value.produtos, led.vendas), "v1", "p1", Typed(Some(5)));
            && r4.Ok?
            && r4.value.produtos[0].quantidadeEstoque == 10 && r4.value.produtos[0].quantidadeVendida == 5
  {
    MugRegistered();
    var r1 := RegisterProduct(Inventory([], []), "Mug-A", Typed(Some(10.0)), Typed(Some(5)), "p1", "h1", "t1");
    var p := r1.value.produtos[0];
    MugSold(p);
    var s := Summarize([CartLine(p, 2)]);
    var led := Confirm(Ledger(r1.value.produtos, []), Some(s.value), ["v1"], "t2");
    assert led.produtos == [led.produtos[0]] && led.vendas == [led.vendas[0]];
    MugToppedUp(led.produtos[0], r1.value.historico);
    var r3 := AddStock(Inventory(led.produtos, r1.value.historico), "p1", Typed(Some(10)), "h2", "t3");
    assert r3.value.produtos == [r3.value.produtos[0]];
    MugEdited(r3.value.produtos[0], led.vendas[0]);
  }

  /** Registering "Mug-A" at 10.00 with 5 units in an empty inventory records 0 -> 5. */
  lemma MugRegistered()
    ensures var r := RegisterProduct(Inventory([], []), "Mug-A", Typed(Some(10.0)), Typed(Some(5)), "p1", "h1", "t1");
            && r.Ok?
            && |r.value.produtos| == 1
            && var p := r.value.produtos[0];
            && p.id == "p1" && p.preco == 10.0 && p.quantidadeEstoque == 5 && p.quantidadeVendida == 0
            && r.value.historico[0].estoqueAnterior == 0 && r.value.historico[0].estoqueNovo == 5
  {
    assert Text.Trim("Mug-A") == "Mug-A" by {
      assert Text.TrimStart("Mug-A") == "Mug-A";
      assert Text.TrimEnd("Mug-A") == "Mug-A";
    }
  }

  /** Adding 10 units to the product with 3 in stock records 3 -> 13. */
  lemma MugToppedUp(q: Product, h: seq<Movement>)
    requires q.id == "p1" && q.quantidadeEstoque == 3
    ensures var r := AddStock(Inventory([q], h), "p1", Typed(Some(10)), "h2", "t3");
            && r.Ok?
            && r.value.produtos == [q.(quantidadeEstoque := 13)]
            && r.value.historico[|h|].estoqueAnterior == 3 && r.value.historico[|h|].estoqueNovo == 13
  {
    assert FindProduct([q], "p1") == Some(q);
  }

  /** Editing the two-unit sale to five units, with 13 in stock, leaves 10 in stock and 5 sold. */
  lemma MugEdited(q: Product, v: Sale)
    requires q.id == "p1" && q.quantidadeEstoque == 13 && q.quantidadeVendida == 2
    requires v.id == "v1" && v.produtoId == "p1" && v.quantidade == 2
    ensures var r := EditSale(Ledger([q], [v]), "v1", "p1", Typed(Some(5)));
            && r.Ok?
            && r.value.produtos[0].quantidadeEstoque == 10 && r.value.produtos[0].quantidadeVendida == 5
  {
    assert FindSale([v], "v1") == Some(v);
    assert FindProduct([q], "p1") == Some(q);
    assert StockAfterReversal(q, v) == 15;
    assert EditAccepted(Ledger([q], [v]), "v1", "p1", Typed(Some(5)));
  }

  /** Selling two of the five units of a 10.00 product that has sold none. */
  lemma MugSold(p: Product)
    requires p.id == "p1" && p.preco == 10.0 && p.quantidadeEstoque == 5 && p.quantidadeVendida == 0
    ensures var s := Summarize([CartLine(p, 2)]);
            && s.Ok?
            && var led := Confirm(Ledger([p], []), Some(s.value), ["v1"], "t2");
            && led.vendas[0].valorTotal == 20.0
            && led.vendas[0].id == "v1" && led.vendas[0].produtoId == "p1" && led.vendas[0].quantidade == 2
            && |led.vendas| == 1 && |led.produtos| == 1 && led.produtos[0].id == "p1"
            && led.produtos[0].quantidadeEstoque == 3 && led.produtos[0].quantidadeVendida == 2
  {
    var s := Summarize([CartLine(p, 2)]);
    assert LineAcceptable(CartLine(p, 2));
    assert s.value.linhas[0].produto == p;
    assert s.value.linhas[1..] == [];
    assert QtyOf(s.value.linhas, "p1") == 2;
  }

  /** Two units of a product with 5 in stock pass the per-product stock check unchanged. */
  lemma MugPassesStockCheck(p: Product)
    requires p.quantidadeEstoque == 5
    ensures Summarize([CartLine(p, 2)]).Ok?
    ensures SummarizeChecked([p], [CartLine(p, 2)]) == Summarize([CartLine(p, 2)])
  {
    var s := Summarize([CartLine(p, 2)]);
    assert LineAcceptable(CartLine(p, 2));
    assert s.value.linhas[0].produto == p;
    assert s.value.linhas[1..] == [];
    assert QtyOf(s.value.linhas, p.id) == 2;
  }

  /** Disabled, the scheduler is never due, however long ago the last backup was. */
  lemma DisabledNeverDue(interval: int, last: Option<int>, keep: int, now: int)
    ensures !ShouldBackup(Config(false, interval, last, keep), now)
  {
  }

  /** With a seven-day interval, eight days after the last backup it is due; six days after, it is not. */
  lemma SevenDayInterval(last: int)
    ensures ShouldBackup(Config(true, 7, Some(last), 5), last + 8 * DayMs)
    ensures !ShouldBackup(Config(true, 7, Some(last), 5), last + 6 * DayMs)
  {
  }
}
