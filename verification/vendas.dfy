/**
 * Sales (src/components/Vendas/Vendas.tsx): building a cart, summarising it,
 * confirming it as one sale per line, editing a sale by reversing and
 * re-applying it, and deleting a sale with reversal. The ledger invariant is
 * that every sale moves units between a product's stock and sold counters, so
 * `quantidadeEstoque + quantidadeVendida` never changes.
 */
module Vendas {
  import opened Wrappers
  import opened Lists
  import opened Types

  /** The two collections the sales screen writes. */
  datatype Ledger = Ledger(produtos: seq<Product>, vendas: seq<Sale>)

  /** A cart line: a snapshot of the product taken when it was picked, and a quantity. */
  datatype CartLine = CartLine(produto: Product, quantidade: int)

  datatype SummaryLine = SummaryLine(produto: Product, quantidade: int, valorTotal: real)

  /** `resumoVenda`: the validated lines and the sale's grand total. */
  datatype Summary = Summary(linhas: seq<SummaryLine>, valorTotal: real)

  /** `preco * quantidade` */
  function LineValue(preco: real, quantidade: int): real {
    preco * (quantidade as real)
  }

  /** Moves `q` units of every product with id `id` from stock to sold (a negative `q` moves them back). */
  function Shift(ps: seq<Product>, id: Id, q: int): (r: seq<Product>)
    ensures |r| == |ps|
    ensures forall i :: 0 <= i < |ps| && ps[i].id != id ==> r[i] == ps[i]
    ensures forall i :: 0 <= i < |ps| && ps[i].id == id ==>
              r[i] == ps[i].(quantidadeEstoque := ps[i].quantidadeEstoque - q,
                             quantidadeVendida := ps[i].quantidadeVendida + q)
    ensures Conserved(ps, r)
  {
    seq(|ps|, i requires 0 <= i < |ps| =>
      if ps[i].id == id
      then ps[i].(quantidadeEstoque := ps[i].quantidadeEstoque - q,
                  quantidadeVendida := ps[i].quantidadeVendida + q)
      else ps[i])
  }

  /** The stock-plus-sold total of each product is the same in both lists, and nothing else differs but the counters. */
  predicate Conserved(before: seq<Product>, after: seq<Product>) {
    && |after| == |before|
    && forall i :: 0 <= i < |before| ==>
         && after[i].quantidadeEstoque + after[i].quantidadeVendida
            == before[i].quantidadeEstoque + before[i].quantidadeVendida
         && after[i] == before[i].(quantidadeEstoque := after[i].quantidadeEstoque,
                                   quantidadeVendida := after[i].quantidadeVendida)
  }

  /**
   * `handleAddProduto`: refuses a missing product or a quantity that is not
   * positive, and a quantity above the picked product's current stock;
   * otherwise appends the line to the cart.
   */
  function AddCartLine(cart: seq<CartLine>, produto: Option<Product>, quantidade: int): (r: Outcome<seq<CartLine>>)
    ensures r.Err? <==> produto.None? || quantidade <= 0 || quantidade > produto.value.quantidadeEstoque
    ensures r.Ok? ==> r.value == cart + [CartLine(produto.value, quantidade)]
  {
    if produto.None? || quantidade <= 0 then Err(MissingFields)
    else if quantidade > produto.value.quantidadeEstoque then Err(InsufficientStock)
    else Ok(cart + [CartLine(produto.value, quantidade)])
  }

  /** A cart line the summary accepts: positive and within its own snapshot's stock. */
  predicate LineAcceptable(l: CartLine) {
    0 < l.quantidade <= l.produto.quantidadeEstoque
  }

  /** The per-line loop of `calcularResumo`: stops at the first unacceptable line. */
  function CheckLines(cart: seq<CartLine>): (r: Outcome<seq<SummaryLine>>)
    ensures r.Ok? <==> forall i :: 0 <= i < |cart| ==> LineAcceptable(cart[i])
    ensures r.Ok? ==> |r.value| == |cart|
    ensures r.Ok? ==> forall i :: 0 <= i < |cart| ==>
              r.value[i] == SummaryLine(cart[i].produto, cart[i].quantidade,
                                        LineValue(cart[i].produto.preco, cart[i].quantidade))
  {
    if cart == [] then Ok([])
    else
      var l := cart[0];
      if l.quantidade <= 0 then Err(InvalidQuantity)
      else if l.quantidade > l.produto.quantidadeEstoque then Err(InsufficientStock)
      else match CheckLines(cart[1..])
        case Err(e) => Err(e)
        case Ok(rest) => Ok([SummaryLine(l.produto, l.quantidade, LineValue(l.produto.preco, l.quantidade))] + rest)
  }

  /**
   * `calcularResumo`: refuses an empty cart and any line whose quantity is not
   * positive or exceeds its own product snapshot's stock. Lines are checked
   * one by one, never summed per product. The grand total is the sum of the
   * line totals.
   */
  function Summarize(cart: seq<CartLine>): (r: Outcome<Summary>)
    ensures r.Err? <==> cart == [] || exists i :: 0 <= i < |cart| && !LineAcceptable(cart[i])
    ensures cart == [] ==> r == Err(EmptyCart)
    ensures r.Ok? ==>
      && |r.value.linhas| == |cart|
      && (forall i :: 0 <= i < |cart| ==>
            && r.value.linhas[i].produto == cart[i].produto
            && r.value.linhas[i].quantidade == cart[i].quantidade
            && r.value.linhas[i].valorTotal == cart[i].produto.preco * (cart[i].quantidade as real))
      && r.value.valorTotal == Total(r.value.linhas, (l: SummaryLine) => l.valorTotal)
  {
    if cart == [] then Err(EmptyCart)
    else match CheckLines(cart)
      case Err(e) => Err(e)
      case Ok(linhas) => Ok(Summary(linhas, Total(linhas, (l: SummaryLine) => l.valorTotal)))
  }

  /** Units of product `id` across the summary lines (a product may appear on several lines). */
  function QtyOf(linhas: seq<SummaryLine>, id: Id): int {
    if linhas == [] then 0
    else (if linhas[0].produto.id == id then linhas[0].quantidade else 0) + QtyOf(linhas[1..], id)
  }

  lemma {:induction false} QtyOfUnreferenced(linhas: seq<SummaryLine>, id: Id)
    requires forall j :: 0 <= j < |linhas| ==> linhas[j].produto.id != id
    ensures QtyOf(linhas, id) == 0
    decreases |linhas|
  {
    if linhas != [] {
      QtyOfUnreferenced(linhas[1..], id);
    }
  }

  /** The stock loop of `confirmarVenda`: applies each line in turn to the current products. */
  function ApplyLines(ps: seq<Product>, linhas: seq<SummaryLine>): (r: seq<Product>)
    ensures |r| == |ps|
    ensures forall i :: 0 <= i < |ps| ==>
              var q := QtyOf(linhas, ps[i].id);
              r[i] == ps[i].(quantidadeEstoque := ps[i].quantidadeEstoque - q,
                             quantidadeVendida := ps[i].quantidadeVendida + q)
    decreases |linhas|
  {
    if linhas == [] then ps
    else ApplyLines(Shift(ps, linhas[0].produto.id, linhas[0].quantidade), linhas[1..])
  }

  /** One new sale per summary line, in line order. */
  function NewSales(linhas: seq<SummaryLine>, ids: seq<Id>, agora: Timestamp): (r: seq<Sale>)
    requires |ids| == |linhas|
    ensures |r| == |linhas|
  {
    seq(|linhas|, i requires 0 <= i < |linhas| =>
      var l := linhas[i];
      Sale(ids[i], l.produto.id, l.produto.nome, l.quantidade, l.produto.preco, l.valorTotal, agora))
  }

  /**
   * `confirmarVenda`: without a summary nothing happens; otherwise one sale per
   * line is appended after the existing sales, and every product loses from
   * stock and gains in sold the units of all lines that name it. Stock is not
   * checked again here. `ids` are the fresh ids `generateId()` hands out.
   */
  function Confirm(led: Ledger, resumo: Option<Summary>, ids: seq<Id>, agora: Timestamp): (r: Ledger)
    requires resumo.Some? ==> |ids| == |resumo.value.linhas|
    ensures resumo.None? ==> r == led
    ensures resumo.Some? ==>
      var linhas := resumo.value.linhas;
      && |r.vendas| == |led.vendas| + |linhas|
      && r.vendas[..|led.vendas|] == led.vendas
      && (forall k :: 0 <= k < |linhas| ==>
            var v := r.vendas[|led.vendas| + k];
            && v.id == ids[k] && v.produtoId == linhas[k].produto.id
            && v.nomeProduto == linhas[k].produto.nome && v.quantidade == linhas[k].quantidade
            && v.precoUnitario == linhas[k].produto.preco && v.valorTotal == linhas[k].valorTotal)
      && |r.produtos| == |led.produtos|
      && (forall i :: 0 <= i < |led.produtos| ==>
            var p, q := led.produtos[i], QtyOf(linhas, led.produtos[i].id);
            r.produtos[i] == p.(quantidadeEstoque := p.quantidadeEstoque - q,
                                quantidadeVendida := p.quantidadeVendida + q))
  {
    match resumo
    case None => led
    case Some(s) => Ledger(ApplyLines(led.produtos, s.linhas), led.vendas + NewSales(s.linhas, ids, agora))
  }

  /** A product that no line names is left exactly as it was by a confirmation. */
  lemma ConfirmLeavesUnreferenced(led: Ledger, s: Summary, ids: seq<Id>, agora: Timestamp, i: nat)
    requires |ids| == |s.linhas| && i < |led.produtos|
    requires forall j :: 0 <= j < |s.linhas| ==> s.linhas[j].produto.id != led.produtos[i].id
    ensures Confirm(led, Some(s), ids, agora).produtos[i] == led.produtos[i]
  {
    QtyOfUnreferenced(s.linhas, led.produtos[i].id);
  }

  /**
   * Lines are checked against the snapshot each carries, never against the
   * other lines for the same product: with one unit in stock, two one-unit
   * lines for it are each accepted, the summary passes, and confirming takes
   * the stock to -1.
   */
  lemma DoubleSpend(led: Ledger, i: nat, ids: seq<Id>, agora: Timestamp)
    requires i < |led.produtos| && led.produtos[i].quantidadeEstoque == 1 && |ids| == 2
    ensures var p := led.produtos[i];
            AddCartLine([], Some(p), 1) == Ok([CartLine(p, 1)])
    ensures var p := led.produtos[i];
            AddCartLine([CartLine(p, 1)], Some(p), 1) == Ok([CartLine(p, 1), CartLine(p, 1)])
    ensures var p := led.produtos[i];
            Summarize([CartLine(p, 1), CartLine(p, 1)]).Ok?
    ensures var p := led.produtos[i];
            var resumo := Summarize([CartLine(p, 1), CartLine(p, 1)]).value;
            Confirm(led, Some(resumo), ids, agora).produtos[i].quantidadeEstoque == -1
  {
    var p := led.produtos[i];
    var cart := [CartLine(p, 1), CartLine(p, 1)];
    assert [] + [CartLine(p, 1)] == [CartLine(p, 1)];
    assert [CartLine(p, 1)] + [CartLine(p, 1)] == cart;
    assert LineAcceptable(cart[0]) && LineAcceptable(cart[1]);
    var linhas := Summarize(cart).value.linhas;
    assert linhas[0].produto == p && linhas[1].produto == p;
    assert linhas[1..][1..] == [];
    assert QtyOf(linhas[1..], p.id) == 1;
  }

  /** Some summary line is for product `id`. */
  predicate Names(linhas: seq<SummaryLine>, id: Id) {
    exists j :: 0 <= j < |linhas| && linhas[j].produto.id == id
  }

  /**
   * Every product of the live catalogue that some line names has stock for
   * the units all lines ask of it, added up. Products no line names are not
   * looked at, whatever their stock.
   */
  predicate FitsStock(ps: seq<Product>, linhas: seq<SummaryLine>) {
    forall i :: 0 <= i < |ps| && Names(linhas, ps[i].id) ==> QtyOf(linhas, ps[i].id) <= ps[i].quantidadeEstoque
  }

  /** With every line positive, a product takes units exactly when some line names it. */
  lemma {:induction false} QtyOfPositive(linhas: seq<SummaryLine>, id: Id)
    requires forall j :: 0 <= j < |linhas| ==> linhas[j].quantidade > 0
    ensures QtyOf(linhas, id) >= 0
    ensures QtyOf(linhas, id) > 0 <==> Names(linhas, id)
    decreases |linhas|
  {
    if linhas != [] {
      var t := linhas[1..];
      QtyOfPositive(t, id);
      if Names(t, id) {
        var j :| 0 <= j < |t| && t[j].produto.id == id;
        assert linhas[j + 1] == t[j];
      }
      if Names(linhas, id) && linhas[0].produto.id != id {
        var j :| 0 <= j < |linhas| && linhas[j].produto.id == id;
        assert t[j - 1] == linhas[j];
      }
    }
  }

  /**
   * The summary with the stock check the cart evidently means: for each
   * product of the live catalogue that the cart names, the units all lines
   * ask of it, added up, must fit its stock. Otherwise the same as `Summarize`.
   */
  function SummarizeChecked(ps: seq<Product>, cart: seq<CartLine>): (r: Outcome<Summary>)
    ensures r.Ok? <==> Summarize(cart).Ok?
                       && forall i :: 0 <= i < |ps| && Names(Summarize(cart).value.linhas, ps[i].id) ==>
                            QtyOf(Summarize(cart).value.linhas, ps[i].id) <= ps[i].quantidadeEstoque
    ensures r.Ok? ==> r == Summarize(cart)
    ensures Summarize(cart).Ok? && r.Err? ==> r == Err(InsufficientStock)
  {
    match Summarize(cart)
    case Err(e) => Err(e)
    case Ok(s) => if FitsStock(ps, s.linhas) then Ok(s) else Err(InsufficientStock)
  }

  /**
   * A product the cart does not name makes no difference to the corrected
   * check, even when its stock is already below zero.
   */
  lemma CheckedIgnoresUnnamed(ps: seq<Product>, cart: seq<CartLine>, b: Product)
    requires forall j :: 0 <= j < |cart| ==> cart[j].produto.id != b.id
    ensures SummarizeChecked(ps + [b], cart) == SummarizeChecked(ps, cart)
  {
    if Summarize(cart).Ok? {
      var linhas := Summarize(cart).value.linhas;
      assert !Names(linhas, b.id);
      assert FitsStock(ps + [b], linhas) == FitsStock(ps, linhas) by {
        assert forall i :: 0 <= i < |ps| ==> (ps + [b])[i] == ps[i];
        assert (ps + [b])[|ps|] == b;
      }
    }
  }

  /**
   * Confirming a summary that passed the corrected check leaves every product
   * the cart names at zero or above and every other product as it was, so a
   * catalogue with no stock below zero keeps none below zero.
   */
  lemma CheckedConfirmKeepsStock(led: Ledger, cart: seq<CartLine>, ids: seq<Id>, agora: Timestamp)
    requires SummarizeChecked(led.produtos, cart).Ok?
    requires |ids| == |cart|
    ensures var s := SummarizeChecked(led.produtos, cart).value;
            forall i :: 0 <= i < |led.produtos| && Names(s.linhas, led.produtos[i].id) ==>
              Confirm(led, Some(s), ids, agora).produtos[i].quantidadeEstoque >= 0
    ensures var s := SummarizeChecked(led.produtos, cart).value;
            forall i :: 0 <= i < |led.produtos| && !Names(s.linhas, led.produtos[i].id) ==>
              Confirm(led, Some(s), ids, agora).produtos[i] == led.produtos[i]
    ensures var s := SummarizeChecked(led.produtos, cart).value;
            (forall i :: 0 <= i < |led.produtos| ==> led.produtos[i].quantidadeEstoque >= 0) ==>
            forall i :: 0 <= i < |led.produtos| ==> Confirm(led, Some(s), ids, agora).produtos[i].quantidadeEstoque >= 0
  {
    var s := SummarizeChecked(led.produtos, cart).value;
    assert forall j :: 0 <= j < |s.linhas| ==> s.linhas[j].quantidade > 0 by {
      forall j | 0 <= j < |s.linhas| ensures s.linhas[j].quantidade > 0 {
        assert LineAcceptable(cart[j]);
      }
    }
    assert FitsStock(led.produtos, s.linhas);
    var r := Confirm(led, Some(s), ids, agora);
    forall i | 0 <= i < |led.produtos|
      ensures Names(s.linhas, led.produtos[i].id) ==> r.produtos[i].quantidadeEstoque >= 0
      ensures !Names(s.linhas, led.produtos[i].id) ==> r.produtos[i] == led.produtos[i]
      ensures led.produtos[i].quantidadeEstoque >= 0 ==> r.produtos[i].quantidadeEstoque >= 0
    {
      QtyOfPositive(s.linhas, led.produtos[i].id);
    }
  }

  /** The corrected check refuses the cart that takes one unit of stock to -1. */
  lemma DoubleSpendRefused(led: Ledger, i: nat)
    requires i < |led.produtos| && led.produtos[i].quantidadeEstoque == 1
    ensures var p := led.produtos[i];
            SummarizeChecked(led.produtos, [CartLine(p, 1), CartLine(p, 1)]) == Err(InsufficientStock)
  {
    var p := led.produtos[i];
    var cart := [CartLine(p, 1), CartLine(p, 1)];
    assert LineAcceptable(cart[0]) && LineAcceptable(cart[1]);
    var linhas := Summarize(cart).value.linhas;
    assert |linhas| == 2 && linhas[0].produto == p && linhas[1].produto == p;
    assert linhas[0].quantidade == 1 && linhas[1].quantidade == 1;
    assert linhas[1..][1..] == [];
    assert QtyOf(linhas[1..], p.id) == 1;
    assert QtyOf(linhas, p.id) == 2;
  }

  /** Confirming conserves stock plus sold for every product. */
  lemma ConfirmConserves(led: Ledger, resumo: Option<Summary>, ids: seq<Id>, agora: Timestamp)
    requires resumo.Some? ==> |ids| == |resumo.value.linhas|
    ensures Conserved(led.produtos, Confirm(led, resumo, ids, agora).produtos)
  {
  }

  /** The quantity form of the sale editor: filled in, a number, and above zero. */
  predicate GoodQuantity(quantidade: FormNumber<int>) {
    quantidade.Typed? && quantidade.parsed.Some? && quantidade.parsed.value > 0
  }

  /** `vendas.map(v => v.id === vendaId ? nova : v)` */
  function ReplaceSale(vs: seq<Sale>, vendaId: Id, nova: Sale): (r: seq<Sale>)
    ensures |r| == |vs|
    ensures forall i :: 0 <= i < |vs| ==> r[i] == if vs[i].id == vendaId then nova else vs[i]
    ensures nova.id == vendaId ==> RemoveSale(r, vendaId) == RemoveSale(vs, vendaId)
  {
    var r := seq(|vs|, i requires 0 <= i < |vs| => if vs[i].id == vendaId then nova else vs[i]);
    if nova.id == vendaId then
      RemoveSalePointwise(r, vs, vendaId);
      r
    else r
  }

  /** Two lists that differ only in entries carrying `id` are the same once those are dropped. */
  lemma {:induction false} RemoveSalePointwise(a: seq<Sale>, b: seq<Sale>, id: Id)
    requires |a| == |b|
    requires forall i :: 0 <= i < |a| ==> (a[i].id == id <==> b[i].id == id)
    requires forall i :: 0 <= i < |a| && a[i].id != id ==> a[i] == b[i]
    ensures RemoveSale(a, id) == RemoveSale(b, id)
    decreases |a|
  {
    if a != [] {
      RemoveSalePointwise(a[1..], b[1..], id);
      var keep := (s: Sale) => s.id != id;
      assert a == [a[0]] + a[1..] && b == [b[0]] + b[1..];
      FilterCons(a[0], a[1..], keep);
      FilterCons(b[0], b[1..], keep);
    }
  }

  /** The stock of the edited product once the original sale has been reversed. */
  function StockAfterReversal(novo: Product, original: Sale): int {
    novo.quantidadeEstoque + (if novo.id == original.produtoId then original.quantidade else 0)
  }

  /** Every condition under which `salvarEdicaoVenda` goes ahead. */
  predicate EditAccepted(led: Ledger, vendaId: Id, produtoId: Id, quantidade: FormNumber<int>) {
    && FindSale(led.vendas, vendaId).Some?
    && produtoId != []
    && FindProduct(led.produtos, produtoId).Some?
    && GoodQuantity(quantidade)
    && FindProduct(led.produtos, FindSale(led.vendas, vendaId).value.produtoId).Some?
    && quantidade.parsed.value <= StockAfterReversal(FindProduct(led.produtos, produtoId).value,
                                                     FindSale(led.vendas, vendaId).value)
  }

  /** Reverses `origQ` units on `origId`, then sells `q` units of `newId`. */
  function Reapply(ps: seq<Product>, origId: Id, origQ: int, newId: Id, q: int): (r: seq<Product>)
    ensures |r| == |ps|
    ensures forall i :: 0 <= i < |ps| ==>
              var p := ps[i];
              var d := (if p.id == origId then origQ else 0) - (if p.id == newId then q else 0);
              r[i] == p.(quantidadeEstoque := p.quantidadeEstoque + d,
                         quantidadeVendida := p.quantidadeVendida - d)
  {
    Shift(Shift(ps, origId, -origQ), newId, q)
  }

  /**
   * `salvarEdicaoVenda`: refuses an unknown sale, an empty field, an unknown new
   * product, a quantity that is NaN or not positive, or a sale whose original
   * product has been removed. Then it reverses the original sale on its
   * product and checks the new quantity against the new product's stock after
   * that reversal. On success the sale keeps its id and date and takes product,
   * name and unit price from the new product.
   */
  function EditSale(led: Ledger, vendaId: Id, produtoId: Id, quantidade: FormNumber<int>): (r: Outcome<Ledger>)
    ensures r.Ok? <==> EditAccepted(led, vendaId, produtoId, quantidade)
    ensures r.Ok? ==>
      var original := FindSale(led.vendas, vendaId).value;
      var novo := FindProduct(led.produtos, produtoId).value;
      var q := quantidade.parsed.value;
      && r.value.vendas == ReplaceSale(led.vendas, vendaId,
                                      Sale(original.id, produtoId, novo.nome, q, novo.preco,
                                           LineValue(novo.preco, q), original.data))
      && r.value.produtos == Reapply(led.produtos, original.produtoId, original.quantidade, produtoId, q)
  {
    match FindSale(led.vendas, vendaId)
    case None => Err(SaleNotFound)
    case Some(original) =>
      if produtoId == [] || quantidade.Blank? then Err(MissingFields)
      else match FindProduct(led.produtos, produtoId)
        case None => Err(ProductNotFound)
        case Some(novo) =>
          if quantidade.parsed.None? || quantidade.parsed.value <= 0 then Err(InvalidQuantity)
          else if FindProduct(led.produtos, original.produtoId).None? then Err(OriginalProductNotFound)
          else
            var q := quantidade.parsed.value;
            match FindAfterReversal(led.produtos, original, produtoId)
            case None => Err(ProductNotFound)
            case Some(atual) =>
              if q > atual.quantidadeEstoque then Err(InsufficientStock)
              else
                var atualizada := original.(produtoId := produtoId, nomeProduto := novo.nome, quantidade := q,
                                            precoUnitario := novo.preco, valorTotal := LineValue(novo.preco, q));
                Ok(Ledger(Reapply(led.produtos, original.produtoId, original.quantidade, produtoId, q),
                          ReplaceSale(led.vendas, vendaId, atualizada)))
  }

  /** `produtosAtualizados.find(...)` after the original sale has been reversed. */
  function FindAfterReversal(ps: seq<Product>, original: Sale, produtoId: Id): (r: Option<Product>)
    requires FindProduct(ps, produtoId).Some?
    ensures r.Some? && r.value.quantidadeEstoque == StockAfterReversal(FindProduct(ps, produtoId).value, original)
  {
    ReversalStock(ps, original, produtoId);
    FindProduct(Shift(ps, original.produtoId, -original.quantidade), produtoId)
  }

  lemma ReversalStock(ps: seq<Product>, original: Sale, produtoId: Id)
    requires FindProduct(ps, produtoId).Some?
    ensures var r := FindProduct(Shift(ps, original.produtoId, -original.quantidade), produtoId);
            r.Some? && r.value.quantidadeEstoque == StockAfterReversal(FindProduct(ps, produtoId).value, original)
  {
    FindAfterShift(ps, original.produtoId, -original.quantidade, produtoId);
    assert FindProduct(ps, produtoId).value.id == produtoId;
  }

  /** Shifting counters does not change which product `find` picks, only its counters. */
  lemma FindAfterShift(ps: seq<Product>, id: Id, q: int, key: Id)
    requires FindProduct(ps, key).Some?
    ensures var p := FindProduct(ps, key).value;
            FindProduct(Shift(ps, id, q), key)
            == Some(if key == id then p.(quantidadeEstoque := p.quantidadeEstoque - q,
                                         quantidadeVendida := p.quantidadeVendida + q) else p)
  {
    var s := Shift(ps, id, q);
    var i := ProductIndex(ps, key);
    forall j | 0 <= j <= i && j < |ps| ensures ProductId(s[j]) == ps[j].id {
    }
    IndexByIdIsFirst(s, ProductId, key, i);
  }

  /** Editing a sale conserves stock plus sold for every product. */
  lemma EditConserves(led: Ledger, vendaId: Id, produtoId: Id, quantidade: FormNumber<int>)
    requires EditSale(led, vendaId, produtoId, quantidade).Ok?
    ensures Conserved(led.produtos, EditSale(led, vendaId, produtoId, quantidade).value.produtos)
  {
  }

  /** Editing a sale from q to q' on the same product moves q - q' units back to stock and q' - q to sold. */
  lemma EditSameProduct(led: Ledger, vendaId: Id, quantidade: FormNumber<int>, i: nat)
    requires FindSale(led.vendas, vendaId).Some?
    requires var pid := FindSale(led.vendas, vendaId).value.produtoId;
             EditSale(led, vendaId, pid, quantidade).Ok? && i < |led.produtos| && led.produtos[i].id == pid
    ensures var original := FindSale(led.vendas, vendaId).value;
            var r := EditSale(led, vendaId, original.produtoId, quantidade).value.produtos[i];
            var q, q' := original.quantidade, quantidade.parsed.value;
            && r.quantidadeEstoque == led.produtos[i].quantidadeEstoque + (q - q')
            && r.quantidadeVendida == led.produtos[i].quantidadeVendida + (q' - q)
  {
  }

  /**
   * `excluirVenda`: refuses an unknown sale; otherwise moves the sale's units
   * from sold back to stock on its product (if the product still exists) and
   * drops every sale with that id.
   */
  function DeleteSale(led: Ledger, vendaId: Id): (r: Outcome<Ledger>)
    ensures r.Err? <==> forall i :: 0 <= i < |led.vendas| ==> led.vendas[i].id != vendaId
    ensures r.Ok? ==>
      var v := FindSale(led.vendas, vendaId).value;
      && SubseqOf(r.value.vendas, led.vendas)
      && (forall s {:trigger multiset(r.value.vendas)[s]} ::
            multiset(r.value.vendas)[s] == if s.id != vendaId then multiset(led.vendas)[s] else 0)
      && (forall s :: s in r.value.vendas <==> s in led.vendas && s.id != vendaId)
      && |r.value.produtos| == |led.produtos|
      && (forall i :: 0 <= i < |led.produtos| ==>
            var p := led.produtos[i];
            r.value.produtos[i] == if p.id == v.produtoId
                                   then p.(quantidadeEstoque := p.quantidadeEstoque + v.quantidade,
                                           quantidadeVendida := p.quantidadeVendida - v.quantidade)
                                   else p)
  {
    match FindSale(led.vendas, vendaId)
    case None => Err(SaleNotFound)
    case Some(v) =>
      Ok(Ledger(Shift(led.produtos, v.produtoId, -v.quantidade), RemoveSale(led.vendas, vendaId)))
  }

  /** The sales left after dropping every sale with the given id, in order. */
  function RemoveSale(vs: seq<Sale>, vendaId: Id): (r: seq<Sale>)
    ensures SubseqOf(r, vs)
    ensures forall s {:trigger multiset(r)[s]} :: multiset(r)[s] == if s.id != vendaId then multiset(vs)[s] else 0
    ensures forall s :: s in r <==> s in vs && s.id != vendaId
    ensures (forall i :: 0 <= i < |vs| ==> vs[i].id != vendaId) ==> r == vs
  {
    Filter(vs, (s: Sale) => s.id != vendaId)
  }

  /** Dropping the id of a sale appended last, whose id is new, gives back the earlier sales. */
  lemma {:induction false} RemoveSaleAppend(vs: seq<Sale>, nova: Sale)
    requires forall i :: 0 <= i < |vs| ==> vs[i].id != nova.id
    ensures RemoveSale(vs + [nova], nova.id) == vs
  {
    var keep := (s: Sale) => s.id != nova.id;
    FilterConcat(vs, [nova], keep);
    assert Filter([nova], keep) == [];
  }

  /** Deleting a sale conserves stock plus sold for every product. */
  lemma DeleteConserves(led: Ledger, vendaId: Id)
    requires DeleteSale(led, vendaId).Ok?
    ensures Conserved(led.produtos, DeleteSale(led, vendaId).value.produtos)
  {
  }

  /**
   * Deleting a sale that was just confirmed on its own restores both
   * collections exactly: the product's counters and the list of sales.
   */
  lemma DeleteUndoesConfirm(led: Ledger, l: SummaryLine, id: Id, agora: Timestamp)
    requires forall i :: 0 <= i < |led.vendas| ==> led.vendas[i].id != id
    ensures var s := Summary([l], l.valorTotal);
            var after := Confirm(led, Some(s), [id], agora);
            DeleteSale(after, id) == Ok(led)
  {
    var s := Summary([l], l.valorTotal);
    var after := Confirm(led, Some(s), [id], agora);
    var nova := Sale(id, l.produto.id, l.produto.nome, l.quantidade, l.produto.preco, l.valorTotal, agora);
    assert NewSales([l], [id], agora) == [nova];
    assert after == Ledger(Shift(led.produtos, l.produto.id, l.quantidade), led.vendas + [nova]) by {
      assert [l][1..] == [];
    }
    DeleteLatest(Shift(led.produtos, l.produto.id, l.quantidade), led.vendas, nova);
    ShiftUndo(led.produtos, l.produto.id, l.quantidade);
  }

  /** Deleting the most recent sale, whose id is new, drops just it and reverses its units. */
  lemma DeleteLatest(ps: seq<Product>, vs: seq<Sale>, nova: Sale)
    requires forall i :: 0 <= i < |vs| ==> vs[i].id != nova.id
    ensures DeleteSale(Ledger(ps, vs + [nova]), nova.id)
            == Ok(Ledger(Shift(ps, nova.produtoId, -nova.quantidade), vs))
  {
    FindSaleAppend(vs, nova);
    RemoveSaleAppend(vs, nova);
  }

  /** Moving units out and back again leaves the products as they were. */
  lemma ShiftUndo(ps: seq<Product>, id: Id, q: int)
    ensures Shift(Shift(ps, id, q), id, -q) == ps
  {
    var r := Shift(Shift(ps, id, q), id, -q);
    assert forall i :: 0 <= i < |ps| ==> r[i] == ps[i];
  }

  lemma FindSaleAppend(vs: seq<Sale>, v: Sale)
    requires forall i :: 0 <= i < |vs| ==> vs[i].id != v.id
    ensures FindSale(vs + [v], v.id) == Some(v)
  {
    var xs := vs + [v];
    assert xs[|vs|] == v;
    assert forall j :: 0 <= j < |vs| ==> SaleId(xs[j]) != v.id by {
      forall j | 0 <= j < |vs| ensures SaleId(xs[j]) != v.id {
        assert xs[j] == vs[j];
      }
    }
  }

  /** `produtosDisponiveis`: the products that can still be sold, in order. */
  function Available(ps: seq<Product>): (r: seq<Product>)
    ensures SubseqOf(r, ps)
    ensures forall p {:trigger multiset(r)[p]} :: multiset(r)[p] == if p.quantidadeEstoque > 0 then multiset(ps)[p] else 0
    ensures forall p :: p in r <==> p in ps && p.quantidadeEstoque > 0
  {
    Filter(ps, (p: Product) => p.quantidadeEstoque > 0)
  }

  /** A product of the catalogue that the cart accepts a line for is one the product picker offers. */
  lemma AcceptedLineAvailable(ps: seq<Product>, cart: seq<CartLine>, p: Product, quantidade: int)
    requires p in ps
    requires AddCartLine(cart, Some(p), quantidade).Ok?
    ensures p in Available(ps)
  {
  }

  /**
   * The cart and the summary agree line by line: a cart built only from lines
   * the cart accepted is one the summary accepts, as long as the stock
   * snapshots are unchanged.
   */
  lemma {:induction false} CartLinesSummarize(cart: seq<CartLine>, p: Product, quantidade: int)
    requires cart == [] || Summarize(cart).Ok?
    requires AddCartLine(cart, Some(p), quantidade).Ok?
    ensures Summarize(AddCartLine(cart, Some(p), quantidade).value).Ok?
  {
    var c := AddCartLine(cart, Some(p), quantidade).value;
    assert c == cart + [CartLine(p, quantidade)];
    forall i | 0 <= i < |c| ensures LineAcceptable(c[i]) {
      if i < |cart| {
        assert c[i] == cart[i];
      }
    }
  }
}
