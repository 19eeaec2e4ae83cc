/**
 * The product catalogue and its stock history (src/components/Produtos/Produtos.tsx):
 * registering a product, adding stock, editing, removing, and the history view.
 * Each handler validates first and only then replaces whole collections.
 */
module Produtos {
  import opened Wrappers
  import opened Text
  import opened Lists
  import opened Types

  /** The two collections the product screen writes. */
  datatype Inventory = Inventory(produtos: seq<Product>, historico: seq<Movement>)

  const InitialStockNote := "Estoque inicial do produto"
  const ManualAdditionNote := "Adição manual de estoque"

  /** Every history entry balances: the new stock is the old stock plus the quantity added. */
  predicate Balanced(h: seq<Movement>) {
    forall i :: 0 <= i < |h| ==> h[i].estoqueNovo == h[i].estoqueAnterior + h[i].quantidade
  }

  /** `registrarHistoricoEstoque`: appends one balanced entry after all existing ones. */
  function RecordMovement(h: seq<Movement>, id: Id, produtoId: Id, nome: string, tipo: MovementKind,
                          quantidade: int, estoqueAnterior: int, agora: Timestamp,
                          observacao: Option<string>): (r: seq<Movement>)
    ensures |r| == |h| + 1 && r[..|h|] == h
    ensures r[|h|].estoqueNovo == r[|h|].estoqueAnterior + r[|h|].quantidade
    ensures r[|h|].estoqueAnterior == estoqueAnterior && r[|h|].quantidade == quantidade
    ensures r[|h|].produtoId == produtoId && r[|h|].tipo == tipo
    ensures Balanced(h) ==> Balanced(r)
  {
    h + [Movement(id, produtoId, nome, tipo, quantidade, estoqueAnterior,
                  estoqueAnterior + quantidade, agora, observacao)]
  }

  /** Some existing product has the same name, ignoring case and surrounding blanks. */
  predicate NameTaken(ps: seq<Product>, nome: string) {
    exists i :: 0 <= i < |ps| && NameKey(ps[i].nome) == NameKey(nome)
  }

  /** The registration form's price: filled in, a number, and above zero. */
  predicate GoodPrice(preco: FormNumber<real>) {
    preco.Typed? && preco.parsed.Some? && preco.parsed.value > 0.0
  }

  /** The registration form's initial stock: filled in, a number, and not negative. */
  predicate GoodInitialStock(estoque: FormNumber<int>) {
    estoque.Typed? && estoque.parsed.Some? && estoque.parsed.value >= 0
  }

  /** The product `adicionarProduto` creates from a validated form. */
  function NewProduct(id: Id, nome: string, preco: real, estoque: int, agora: Timestamp): Product {
    Product(id, Trim(nome), preco, estoque, 0, agora)
  }

  /**
   * `adicionarProduto`: refuses a blank name, an empty field, a bad price or
   * stock, or a name already in use; otherwise appends the product and, when
   * the initial stock is positive, a `cadastro_inicial` history entry 0 -> stock.
   */
  function RegisterProduct(inv: Inventory, nome: string, preco: FormNumber<real>, estoque: FormNumber<int>,
                           produtoId: Id, historicoId: Id, agora: Timestamp): (r: Outcome<Inventory>)
    ensures r.Err? <==> Trim(nome) == [] || !GoodPrice(preco) || !GoodInitialStock(estoque)
                        || NameTaken(inv.produtos, nome)
    ensures Trim(nome) == [] || preco.Blank? || estoque.Blank? ==> r == Err(MissingFields)
    ensures r.Ok? ==>
      var q := estoque.parsed.value;
      && |r.value.produtos| == |inv.produtos| + 1
      && r.value.produtos[..|inv.produtos|] == inv.produtos
      && var p := r.value.produtos[|inv.produtos|];
      && p.id == produtoId && p.nome == Trim(nome) && p.preco == preco.parsed.value
      && p.quantidadeEstoque == q && p.quantidadeVendida == 0
      && (q > 0 ==> |r.value.historico| == |inv.historico| + 1
                    && r.value.historico[..|inv.historico|] == inv.historico
                    && var m := r.value.historico[|inv.historico|];
                       m.tipo == CadastroInicial && m.produtoId == produtoId && m.nomeProduto == p.nome
                       && m.estoqueAnterior == 0 && m.quantidade == q && m.estoqueNovo == q)
      && (q == 0 ==> r.value.historico == inv.historico)
  {
    if Trim(nome) == [] || preco.Blank? || estoque.Blank? then Err(MissingFields)
    else if preco.parsed.None? || preco.parsed.value <= 0.0 then Err(InvalidPrice)
    else if estoque.parsed.None? || estoque.parsed.value < 0 then Err(InvalidQuantity)
    else if NameTaken(inv.produtos, nome) then Err(DuplicateName)
    else
      var q := estoque.parsed.value;
      var p := NewProduct(produtoId, nome, preco.parsed.value, q, agora);
      var h := if q > 0
               then RecordMovement(inv.historico, historicoId, p.id, p.nome, CadastroInicial, q, 0, agora,
                                   Some(InitialStockNote))
               else inv.historico;
      Ok(Inventory(inv.produtos + [p], h))
  }

  /** The quantity form of "Adicionar Estoque": filled in, a number, and above zero. */
  predicate GoodAddition(quantidade: FormNumber<int>) {
    quantidade.Typed? && quantidade.parsed.Some? && quantidade.parsed.value > 0
  }

  /** Raises the stock of every product with id `id` by `q`. */
  function RaiseStock(ps: seq<Product>, id: Id, q: int): (r: seq<Product>)
    ensures |r| == |ps|
    ensures forall i :: 0 <= i < |ps| && ps[i].id != id ==> r[i] == ps[i]
    ensures forall i :: 0 <= i < |ps| && ps[i].id == id ==>
              r[i] == ps[i].(quantidadeEstoque := ps[i].quantidadeEstoque + q)
  {
    seq(|ps|, i requires 0 <= i < |ps| =>
      if ps[i].id == id then ps[i].(quantidadeEstoque := ps[i].quantidadeEstoque + q) else ps[i])
  }

  /**
   * `adicionarEstoqueProduto`: refuses an empty selection or quantity, a
   * quantity that is NaN or not positive, or an unknown product; otherwise raises
   * that product's stock by the quantity and appends an `adicao` entry whose
   * previous stock is the product's stock before the change.
   */
  function AddStock(inv: Inventory, produtoId: Id, quantidade: FormNumber<int>,
                    historicoId: Id, agora: Timestamp): (r: Outcome<Inventory>)
    ensures r.Err? <==> produtoId == [] || !GoodAddition(quantidade)
                        || FindProduct(inv.produtos, produtoId).None?
    ensures r.Ok? ==>
      var q := quantidade.parsed.value;
      var before := FindProduct(inv.produtos, produtoId).value;
      && |r.value.produtos| == |inv.produtos|
      && (forall i :: 0 <= i < |inv.produtos| ==>
            var p, p' := inv.produtos[i], r.value.produtos[i];
            if p.id == produtoId then p' == p.(quantidadeEstoque := p.quantidadeEstoque + q) else p' == p)
      && |r.value.historico| == |inv.historico| + 1
      && r.value.historico[..|inv.historico|] == inv.historico
      && var m := r.value.historico[|inv.historico|];
         m.tipo == Adicao && m.produtoId == produtoId && m.nomeProduto == before.nome && m.quantidade == q
         && m.estoqueAnterior == before.quantidadeEstoque && m.estoqueNovo == before.quantidadeEstoque + q
  {
    if produtoId == [] || quantidade.Blank? then Err(MissingFields)
    else if quantidade.parsed.None? || quantidade.parsed.value <= 0 then Err(InvalidQuantity)
    else match FindProduct(inv.produtos, produtoId)
      case None => Err(ProductNotFound)
      case Some(p) =>
        var q := quantidade.parsed.value;
        Ok(Inventory(
          RaiseStock(inv.produtos, produtoId, q),
          RecordMovement(inv.historico, historicoId, p.id, p.nome, Adicao, q, p.quantidadeEstoque, agora,
                         Some(ManualAdditionNote))))
  }

  /** Another product (a different id) already uses the edited name. */
  predicate NameTakenByOther(ps: seq<Product>, id: Id, nome: string) {
    exists i :: 0 <= i < |ps| && ps[i].id != id && NameKey(ps[i].nome) == Lower(Trim(nome))
  }

  /**
   * `salvarEdicaoProduto`: refuses a blank name, a name used by a product with a
   * different id, a bad price or a negative stock; otherwise overwrites name,
   * price and stock of the products with that id. The sold counter is kept and
   * no history entry is written.
   */
  function EditProduct(ps: seq<Product>, id: Id, nome: string, preco: Option<real>,
                       estoque: Option<int>): (r: Outcome<seq<Product>>)
    ensures r.Err? <==> Trim(nome) == [] || NameTakenByOther(ps, id, nome)
                        || preco.None? || preco.value <= 0.0 || estoque.None? || estoque.value < 0
    ensures r.Ok? ==>
      && |r.value| == |ps|
      && forall i :: 0 <= i < |ps| ==>
           var p, p' := ps[i], r.value[i];
           if p.id == id
           then p' == p.(nome := Trim(nome), preco := preco.value, quantidadeEstoque := estoque.value)
           else p' == p
  {
    var nomeProcessado := Trim(nome);
    if nomeProcessado == [] then Err(BlankName)
    else if NameTakenByOther(ps, id, nome) then Err(DuplicateName)
    else if preco.None? || preco.value <= 0.0 then Err(InvalidPrice)
    else if estoque.None? || estoque.value < 0 then Err(InvalidQuantity)
    else
      Ok(seq(|ps|, i requires 0 <= i < |ps| =>
        if ps[i].id == id
        then ps[i].(nome := nomeProcessado, preco := preco.value, quantidadeEstoque := estoque.value)
        else ps[i]))
  }

  /** `removerProduto`: keeps exactly the products with a different id, in order. */
  function RemoveProduct(ps: seq<Product>, id: Id): (r: seq<Product>)
    ensures SubseqOf(r, ps)
    ensures forall p {:trigger multiset(r)[p]} :: multiset(r)[p] == if p.id != id then multiset(ps)[p] else 0
    ensures forall p :: p in r <==> p in ps && p.id != id
    ensures (forall i :: 0 <= i < |ps| ==> ps[i].id != id) ==> r == ps
  {
    Filter(ps, (p: Product) => p.id != id)
  }

  /** The history view: entries of the selected product, or every entry when none is selected. */
  function HistoryView(h: seq<Movement>, selecionado: Id): (r: seq<Movement>)
    ensures selecionado == [] ==> r == h
    ensures selecionado != [] ==> SubseqOf(r, h)
    ensures selecionado != [] ==>
              forall m {:trigger multiset(r)[m]} ::
                multiset(r)[m] == if m.produtoId == selecionado then multiset(h)[m] else 0
    ensures selecionado != [] ==> forall m :: m in r <==> m in h && m.produtoId == selecionado
  {
    if selecionado == [] then h else Filter(h, (m: Movement) => m.produtoId == selecionado)
  }

  /** The `adicao` entries of the history, in order; `cadastro_inicial` entries are left out. */
  function Additions(h: seq<Movement>): (r: seq<Movement>)
    ensures SubseqOf(r, h)
    ensures forall m {:trigger multiset(r)[m]} :: multiset(r)[m] == if m.tipo == Adicao then multiset(h)[m] else 0
    ensures forall m :: m in r <==> m in h && m.tipo == Adicao
  {
    Filter(h, (m: Movement) => m.tipo == Adicao)
  }

  /** Removing a product just registered under a fresh id gives back the catalogue as it was. */
  lemma RemoveUndoesRegister(inv: Inventory, nome: string, preco: FormNumber<real>, estoque: FormNumber<int>,
                             produtoId: Id, historicoId: Id, agora: Timestamp)
    requires forall i :: 0 <= i < |inv.produtos| ==> inv.produtos[i].id != produtoId
    requires RegisterProduct(inv, nome, preco, estoque, produtoId, historicoId, agora).Ok?
    ensures RemoveProduct(RegisterProduct(inv, nome, preco, estoque, produtoId, historicoId, agora).value.produtos,
                          produtoId) == inv.produtos
  {
    var ps := RegisterProduct(inv, nome, preco, estoque, produtoId, historicoId, agora).value.produtos;
    var p := ps[|inv.produtos|];
    assert ps == inv.produtos + [p];
    var keep := (q: Product) => q.id != produtoId;
    FilterConcat(inv.produtos, [p], keep);
    assert Filter([p], keep) == [];
  }

  /**
   * A new history entry shows at the end of the view of its own product and of
   * the unfiltered view, and in no other product's view.
   */
  lemma HistoryViewRecord(h: seq<Movement>, selecionado: Id, id: Id, produtoId: Id, nome: string,
                          tipo: MovementKind, quantidade: int, estoqueAnterior: int, agora: Timestamp,
                          observacao: Option<string>)
    ensures var h' := RecordMovement(h, id, produtoId, nome, tipo, quantidade, estoqueAnterior, agora, observacao);
            HistoryView(h', selecionado)
            == HistoryView(h, selecionado) + (if selecionado == [] || selecionado == produtoId then [h'[|h|]] else [])
  {
    var h' := RecordMovement(h, id, produtoId, nome, tipo, quantidade, estoqueAnterior, agora, observacao);
    assert h' == h + [h'[|h|]];
    if selecionado != [] {
      var keep := (m: Movement) => m.produtoId == selecionado;
      FilterConcat(h, [h'[|h|]], keep);
      FilterCons(h'[|h|], [], keep);
    }
  }

  /** `totalAdicoes`: the number of manual additions. */
  function AdditionCount(h: seq<Movement>): nat {
    |Additions(h)|
  }

  /** `totalQuantidadeAdicionada`: the units brought in by manual additions. */
  function AddedUnits(h: seq<Movement>): int {
    Count(Additions(h), (m: Movement) => m.quantidade)
  }

  lemma AdditionsAppend(h: seq<Movement>, m: Movement)
    ensures Additions(h + [m]) == Additions(h) + (if m.tipo == Adicao then [m] else [])
  {
    FilterConcat(h, [m], (m: Movement) => m.tipo == Adicao);
  }

  /** A manual addition counts once and adds exactly its quantity to the added units. */
  lemma AddStockStatistics(inv: Inventory, produtoId: Id, quantidade: FormNumber<int>, historicoId: Id, agora: Timestamp)
    requires AddStock(inv, produtoId, quantidade, historicoId, agora).Ok?
    ensures var h := AddStock(inv, produtoId, quantidade, historicoId, agora).value.historico;
            AdditionCount(h) == AdditionCount(inv.historico) + 1
            && AddedUnits(h) == AddedUnits(inv.historico) + quantidade.parsed.value
  {
    var h := AddStock(inv, produtoId, quantidade, historicoId, agora).value.historico;
    var m := h[|inv.historico|];
    assert h == inv.historico + [m];
    AdditionsAppend(inv.historico, m);
    CountConcat(Additions(inv.historico), [m], (m: Movement) => m.quantidade);
  }

  /** Registering a product never changes the addition statistics: its initial entry is not an `adicao`. */
  lemma RegisterLeavesStatistics(inv: Inventory, nome: string, preco: FormNumber<real>, estoque: FormNumber<int>,
                                 produtoId: Id, historicoId: Id, agora: Timestamp)
    requires RegisterProduct(inv, nome, preco, estoque, produtoId, historicoId, agora).Ok?
    ensures var h := RegisterProduct(inv, nome, preco, estoque, produtoId, historicoId, agora).value.historico;
            AdditionCount(h) == AdditionCount(inv.historico) && AddedUnits(h) == AddedUnits(inv.historico)
  {
    var h := RegisterProduct(inv, nome, preco, estoque, produtoId, historicoId, agora).value.historico;
    if h != inv.historico {
      var m := h[|inv.historico|];
      assert h == inv.historico + [m];
      assert m.tipo == CadastroInicial;
      AdditionsAppend(inv.historico, m);
      assert Additions(inv.historico) + [] == Additions(inv.historico);
    }
  }

  /** Both history-writing operations keep every entry balanced. */
  lemma HistoryStaysBalanced(inv: Inventory, nome: string, preco: FormNumber<real>, estoque: FormNumber<int>,
                             quantidade: FormNumber<int>, produtoId: Id, historicoId: Id, agora: Timestamp)
    requires Balanced(inv.historico)
    ensures var r := RegisterProduct(inv, nome, preco, estoque, produtoId, historicoId, agora);
            r.Ok? ==> Balanced(r.value.historico)
    ensures var r := AddStock(inv, produtoId, quantidade, historicoId, agora);
            r.Ok? ==> Balanced(r.value.historico)
  {
  }

  /** No two products share a name, ignoring case and surrounding blanks. */
  predicate DistinctNames(ps: seq<Product>) {
    forall i, j :: 0 <= i < j < |ps| ==> NameKey(ps[i].nome) != NameKey(ps[j].nome)
  }

  /** Registration keeps the catalogue's names distinct. */
  lemma RegisterKeepsNamesDistinct(inv: Inventory, nome: string, preco: FormNumber<real>, estoque: FormNumber<int>,
                                   produtoId: Id, historicoId: Id, agora: Timestamp)
    requires DistinctNames(inv.produtos)
    ensures var r := RegisterProduct(inv, nome, preco, estoque, produtoId, historicoId, agora);
            r.Ok? ==> DistinctNames(r.value.produtos)
  {
    var r := RegisterProduct(inv, nome, preco, estoque, produtoId, historicoId, agora);
    if r.Ok? {
      var ps := inv.produtos;
      var p := r.value.produtos[|ps|];
      assert r.value.produtos == ps + [p];
      NameKeyOfTrimmed(nome);
      AppendKeepsNamesDistinct(ps, p);
    }
  }

  /** Appending a product whose name is not taken keeps the names distinct. */
  lemma AppendKeepsNamesDistinct(ps: seq<Product>, p: Product)
    requires DistinctNames(ps) && !NameTaken(ps, p.nome)
    ensures DistinctNames(ps + [p])
  {
    var ps' := ps + [p];
    forall i, j | 0 <= i < j < |ps'| ensures NameKey(ps'[i].nome) != NameKey(ps'[j].nome) {
      assert ps'[i] == ps[i];
      if j < |ps| { assert ps'[j] == ps[j]; }
    }
  }

  /** A second registration under a name that differs only in case or surrounding blanks is refused. */
  lemma SecondRegistrationRefused(inv: Inventory, nome: string, preco: FormNumber<real>, estoque: FormNumber<int>,
                                  produtoId: Id, historicoId: Id, agora: Timestamp,
                                  nome2: string, preco2: FormNumber<real>, estoque2: FormNumber<int>,
                                  produtoId2: Id, historicoId2: Id, agora2: Timestamp)
    requires RegisterProduct(inv, nome, preco, estoque, produtoId, historicoId, agora).Ok?
    requires NameKey(nome2) == NameKey(nome)
    ensures var inv' := RegisterProduct(inv, nome, preco, estoque, produtoId, historicoId, agora).value;
            RegisterProduct(inv', nome2, preco2, estoque2, produtoId2, historicoId2, agora2).Err?
  {
    var inv' := RegisterProduct(inv, nome, preco, estoque, produtoId, historicoId, agora).value;
    NameKeyOfTrimmed(nome);
    assert NameKey(inv'.produtos[|inv.produtos|].nome) == NameKey(nome2);
  }

  /** Editing keeps names distinct when ids are unique: only other products are checked for a clash. */
  lemma EditKeepsNamesDistinct(ps: seq<Product>, id: Id, nome: string, preco: Option<real>, estoque: Option<int>)
    requires DistinctNames(ps) && UniqueProductIds(ps)
    requires EditProduct(ps, id, nome, preco, estoque).Ok?
    ensures DistinctNames(EditProduct(ps, id, nome, preco, estoque).value)
  {
    var r := EditProduct(ps, id, nome, preco, estoque).value;
    LowerTrimCommute(nome);
    NameKeyOfTrimmed(nome);
    forall i, j | 0 <= i < j < |r| ensures NameKey(r[i].nome) != NameKey(r[j].nome) {
      if ps[i].id == id {
        assert ps[j].id != id;
      } else if ps[j].id == id {
        assert ps[i].id != id;
      }
    }
  }

  /** Re-casing or re-spacing a product's own name is accepted: the clash check skips the product itself. */
  lemma RecasingOwnNameAllowed(ps: seq<Product>, k: nat, nome: string, preco: real, estoque: int)
    requires DistinctNames(ps) && k < |ps|
    requires NameKey(nome) == NameKey(ps[k].nome) && Trim(nome) != []
    requires preco > 0.0 && estoque >= 0
    ensures EditProduct(ps, ps[k].id, nome, Some(preco), Some(estoque)).Ok?
  {
    LowerTrimCommute(nome);
  }
}
