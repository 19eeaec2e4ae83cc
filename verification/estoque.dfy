/**
 * The stock screen (src/components/Estoque/Estoque.tsx): the low-stock list,
 * the unit totals, each product's status and stock value, and the footer sum.
 */
module Estoque {
  import opened Wrappers
  import opened Lists
  import opened Types
  import opened Vendas
  import opened Produtos

  const LowStockLimit := 3

  /** `produtos.filter(p => p.quantidadeEstoque <= 3)`, in catalogue order. */
  function LowStock(ps: seq<Product>): (r: seq<Product>)
    ensures SubseqOf(r, ps)
    ensures forall p {:trigger multiset(r)[p]} ::
              multiset(r)[p] == if p.quantidadeEstoque <= LowStockLimit then multiset(ps)[p] else 0
    ensures forall p :: p in r <==> p in ps && p.quantidadeEstoque <= LowStockLimit
    ensures |r| <= |ps|
  {
    Filter(ps, (p: Product) => p.quantidadeEstoque <= LowStockLimit)
  }

  function InStock(p: Product): int { p.quantidadeEstoque }
  function Sold(p: Product): int { p.quantidadeVendida }
  function Units(p: Product): int { p.quantidadeEstoque + p.quantidadeVendida }

  /** "Total em Estoque" and "Total Vendido". */
  function TotalInStock(ps: seq<Product>): int { Count(ps, InStock) }
  function TotalSold(ps: seq<Product>): int { Count(ps, Sold) }

  datatype Status = Esgotado | Baixo | Normal

  /**
   * The status badge: sold out at exactly zero, low up to three, normal
   * above. A negative stock is not zero, so it shows as low.
   */
  function StatusOf(p: Product): (s: Status)
    ensures s == Esgotado <==> p.quantidadeEstoque == 0
    ensures s == Normal <==> p.quantidadeEstoque > LowStockLimit
    ensures p.quantidadeEstoque < 0 ==> s == Baixo
  {
    if p.quantidadeEstoque == 0 then Esgotado
    else if p.quantidadeEstoque <= LowStockLimit then Baixo
    else Normal
  }

  /** A product of the catalogue is on the low-stock list exactly when its badge is not "Normal". */
  lemma StatusMatchesLowStock(ps: seq<Product>, p: Product)
    requires p in ps
    ensures p in LowStock(ps) <==> StatusOf(p) != Normal
    ensures StatusOf(p) == Esgotado ==> p in LowStock(ps)
  {
  }

  /** `quantidadeEstoque * preco` */
  function StockValue(p: Product): real {
    p.quantidadeEstoque as real * p.preco
  }

  /** The footer: the stock value of the whole catalogue; never negative when no counter or price is. */
  function CatalogueValue(ps: seq<Product>): (r: real)
    ensures ps == [] ==> r == 0.0
    ensures (forall i :: 0 <= i < |ps| ==> ps[i].quantidadeEstoque >= 0 && ps[i].preco >= 0.0) ==> r >= 0.0
  {
    Total(ps, StockValue)
  }

  /**
   * The footer adds up each product's stock times price: one product is worth
   * its stock times its price, and two catalogues laid end to end are worth
   * the sum of their footers.
   */
  lemma CatalogueValueConcat(a: seq<Product>, b: seq<Product>, p: Product)
    ensures CatalogueValue([p]) == p.quantidadeEstoque as real * p.preco
    ensures CatalogueValue(a + b) == CatalogueValue(a) + CatalogueValue(b)
  {
    assert [p][1..] == [];
    assert Total([p][1..], StockValue) == 0.0;
    assert Total([p], StockValue) == StockValue(p) + Total([p][1..], StockValue);
    TotalConcat(a, b, StockValue);
  }

  function Price(p: Product): real { p.preco }

  /** What `q` more units of a product add to the footer: `q` times its price. */
  function Gain(q: int): Product -> real {
    (p: Product) => q as real * p.preco
  }

  /**
   * Adding `q` units to the products with id `id` raises the footer by `q`
   * times the price of each of them, and leaves it alone when no product has
   * that id.
   */
  lemma {:induction false} RaiseStockValue(ps: seq<Product>, id: Id, q: int)
    ensures CatalogueValue(RaiseStock(ps, id, q)) == CatalogueValue(ps) + Total(Where(ps, ProductId, id), Gain(q))
    ensures (forall i :: 0 <= i < |ps| ==> ps[i].id != id) ==> CatalogueValue(RaiseStock(ps, id, q)) == CatalogueValue(ps)
    decreases |ps|
  {
    if ps != [] {
      var t := ps[1..];
      RaiseStockValue(t, id, q);
      RaiseStockHead(ps, id, q);
      WhereGainHead(ps, id, q);
      RaisedHead(ps, id, q);
      assert CatalogueValue(ps) == StockValue(ps[0]) + CatalogueValue(t);
    }
  }

  /** The first product of the raised catalogue gains `q` times its price when it has id `id`. */
  lemma RaisedHead(ps: seq<Product>, id: Id, q: int)
    requires ps != []
    ensures StockValue(RaiseStock(ps, id, q)[0])
         == StockValue(ps[0]) + (if ps[0].id == id then Gain(q)(ps[0]) else 0.0)
  {
    if ps[0].id == id {
      RaisedValue(ps[0], q);
    }
  }

  /** The footer of the raised catalogue splits into the raised head and the raised tail. */
  lemma RaiseStockHead(ps: seq<Product>, id: Id, q: int)
    requires ps != []
    ensures CatalogueValue(RaiseStock(ps, id, q))
         == StockValue(RaiseStock(ps, id, q)[0]) + CatalogueValue(RaiseStock(ps[1..], id, q))
  {
    assert RaiseStock(ps, id, q)[1..] == RaiseStock(ps[1..], id, q);
  }

  /** The gain over the products with id `id` splits into the head's (if it has that id) and the tail's. */
  lemma WhereGainHead(ps: seq<Product>, id: Id, q: int)
    requires ps != []
    ensures Total(Where(ps, ProductId, id), Gain(q))
         == (if ps[0].id == id then Gain(q)(ps[0]) else 0.0) + Total(Where(ps[1..], ProductId, id), Gain(q))
  {
    var w := Where(ps[1..], ProductId, id);
    if ps[0].id == id {
      assert Where(ps, ProductId, id) == [ps[0]] + w;
      assert ([ps[0]] + w)[1..] == w;
    }
  }

  /**
   * With ids unique, as registration keeps them, raising the one product with
   * id `id` by `q` raises the footer by exactly `q` times its price.
   */
  lemma RaiseOneStockValue(ps: seq<Product>, i: int, q: int)
    requires 0 <= i < |ps|
    requires forall j :: 0 <= j < |ps| && j != i ==> ps[j].id != ps[i].id
    ensures CatalogueValue(RaiseStock(ps, ps[i].id, q)) == CatalogueValue(ps) + q as real * ps[i].preco
  {
    var w := Where(ps, ProductId, ps[i].id);
    RaiseStockValue(ps, ps[i].id, q);
    WhereUnique(ps, i);
    assert w[1..] == [];
  }

  /** With ids unique, selecting by one product's id finds that product alone. */
  lemma {:induction false} WhereUnique(ps: seq<Product>, i: int)
    requires 0 <= i < |ps|
    requires forall j :: 0 <= j < |ps| && j != i ==> ps[j].id != ps[i].id
    ensures Where(ps, ProductId, ps[i].id) == [ps[i]]
    decreases |ps|
  {
    var t := ps[1..];
    var w := Where(t, ProductId, ps[i].id);
    if i == 0 {
      assert forall x :: x in t ==> ProductId(x) != ps[0].id;
      assert multiset(w) == multiset{};
      assert ([ps[0]] + w)[1..] == w;
      assert Where(ps, ProductId, ps[0].id) == [ps[0]] + w;
    } else {
      assert forall j :: 0 <= j < |t| && j != i - 1 ==> t[j].id != t[i - 1].id by {
        forall j | 0 <= j < |t| && j != i - 1 ensures t[j].id != t[i - 1].id {
          assert t[j] == ps[j + 1];
        }
      }
      WhereUnique(t, i - 1);
    }
  }

  /** Raising one product's stock by `q` raises its value by `q` times its price. */
  lemma RaisedValue(p: Product, q: int)
    ensures StockValue(p.(quantidadeEstoque := p.quantidadeEstoque + q)) == StockValue(p) + Gain(q)(p)
  {
    Distribute(p.preco, p.quantidadeEstoque as real, q as real);
  }

  lemma Distribute(a: real, b: real, c: real)
    ensures a * (b + c) == a * b + a * c
    ensures (b + c) * a == b * a + c * a
  {
  }

  /** Units in stock plus units sold is the sum over products of stock plus sold. */
  lemma {:induction false} UnitsSplit(ps: seq<Product>)
    ensures Count(ps, Units) == TotalInStock(ps) + TotalSold(ps)
    decreases |ps|
  {
    if ps != [] {
      UnitsSplit(ps[1..]);
    }
  }

  /**
   * Whatever moves units between stock and sold on each product keeps the
   * screen's two totals summing to the same number.
   */
  lemma ConservedTotals(before: seq<Product>, after: seq<Product>)
    requires Conserved(before, after)
    ensures TotalInStock(after) + TotalSold(after) == TotalInStock(before) + TotalSold(before)
  {
    UnitsSplit(before);
    UnitsSplit(after);
    CountPointwise(after, before, Units, Units);
  }

  /** Confirming a sale, editing one and deleting one all keep the stock and sold totals' sum. */
  lemma SalesKeepTotals(led: Ledger, resumo: Summary, ids: seq<Id>, agora: Timestamp,
                        vendaId: Id, produtoId: Id, quantidade: FormNumber<int>)
    requires |ids| == |resumo.linhas|
    ensures var after := Confirm(led, Some(resumo), ids, agora).produtos;
            TotalInStock(after) + TotalSold(after) == TotalInStock(led.produtos) + TotalSold(led.produtos)
    ensures var r := EditSale(led, vendaId, produtoId, quantidade);
            r.Ok? ==> TotalInStock(r.value.produtos) + TotalSold(r.value.produtos)
                      == TotalInStock(led.produtos) + TotalSold(led.produtos)
    ensures var r := DeleteSale(led, vendaId);
            r.Ok? ==> TotalInStock(r.value.produtos) + TotalSold(r.value.produtos)
                      == TotalInStock(led.produtos) + TotalSold(led.produtos)
  {
    ConfirmConserves(led, Some(resumo), ids, agora);
    ConservedTotals(led.produtos, Confirm(led, Some(resumo), ids, agora).produtos);
    var e := EditSale(led, vendaId, produtoId, quantidade);
    if e.Ok? {
      EditConserves(led, vendaId, produtoId, quantidade);
      ConservedTotals(led.produtos, e.value.produtos);
    }
    var d := DeleteSale(led, vendaId);
    if d.Ok? {
      DeleteConserves(led, vendaId);
      ConservedTotals(led.produtos, d.value.produtos);
    }
  }
}
