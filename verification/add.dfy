/**
 * The entry form: the user's expense categories (load, add, ask to
 * delete, delete) and the submission of a new income or expense record.
 */
module Add {
  import opened Wrappers
  import opened Seqs
  import opened Text
  import opened Money
  import opened Records

  /** A category as the form keeps it. */
  datatype Category = Category(nome: string, icone: string)

  /** A document of the `categorias` collection; an absent field is the empty string. */
  datatype CategoryDoc = CategoryDoc(nome: string, icone: string, userId: string)

  /** `!user?.uid` is false: somebody is signed in and has a non-empty id. */
  predicate Authenticated(user: Option<string>)
  {
    user.Some? && user.value != ""
  }

  // ----- Categories -----

  /** A document is loaded when it is the user's and has both a name and an icon. */
  predicate Loadable(d: CategoryDoc, uid: string)
  {
    d.userId == uid && d.nome != "" && d.icone != ""
  }

  function ToCategory(d: CategoryDoc): Category
  {
    Category(d.nome, d.icone)
  }

  /** Some category carries the name. */
  predicate HasName(cats: seq<Category>, nome: string)
  {
    exists k :: 0 <= k < |cats| && cats[k].nome == nome
  }

  /** No two categories share a name. */
  predicate UniqueNames(cats: seq<Category>)
  {
    forall i, j :: 0 <= i < j < |cats| ==> cats[i].nome != cats[j].nome
  }

  /** The icon of the first category with that name, if any category has it. */
  function IconOf(cats: seq<Category>, nome: string): (r: Option<string>)
    ensures r.Some? <==> HasName(cats, nome)
    ensures r.Some? ==> exists k :: 0 <= k < |cats| && cats[k] == Category(nome, r.value)
                                    && forall j :: 0 <= j < k ==> cats[j].nome != nome
  {
    if cats == [] then None
    else if cats[0].nome == nome then Some(cats[0].icone)
    else
      var r := IconOf(cats[1..], nome);
      assert HasName(cats, nome) ==> HasName(cats[1..], nome) by {
        if HasName(cats, nome) {
          var k :| 0 <= k < |cats| && cats[k].nome == nome;
          assert cats[1..][k - 1] == cats[k];
        }
      }
      assert r.Some? ==> exists k :: 0 <= k < |cats| && cats[k] == Category(nome, r.value)
                                     && forall j :: 0 <= j < k ==> cats[j].nome != nome by {
        if r.Some? {
          var k :| 0 <= k < |cats[1..]| && cats[1..][k] == Category(nome, r.value)
                   && forall j :: 0 <= j < k ==> cats[1..][j].nome != nome;
          assert cats[k + 1] == Category(nome, r.value);
          forall j | 0 <= j < k + 1 ensures cats[j].nome != nome {
            if j > 0 {
              assert cats[j] == cats[1..][j - 1];
            }
          }
        }
      }
      r
  }

  /** Every category except those with that name, in order and with their multiplicity. */
  function Without(cats: seq<Category>, nome: string): (r: seq<Category>)
    ensures Subseq(r, cats)
    ensures forall c :: c in r <==> c in cats && c.nome != nome
    ensures !HasName(r, nome)
    ensures forall c :: multiset(r)[c] == if c.nome != nome then multiset(cats)[c] else 0
  {
    var keep := (c: Category) => c.nome != nome;
    FilterCount(cats, keep);
    FilterIsSubseq(cats, keep);
    FilterMembers(cats, keep);
    var r := Filter(cats, keep);
    assert forall k :: 0 <= k < |r| ==> r[k] in r;
    r
  }

  /** The categories a load produces: the loadable documents, in store order. */
  function Loaded(docs: seq<CategoryDoc>, uid: string): seq<Category>
  {
    Map(Filter(docs, (d: CategoryDoc) => Loadable(d, uid)), ToCategory)
  }

  /** A category is loaded exactly when some document of the user with both fields carries it. */
  lemma LoadedCategories(docs: seq<CategoryDoc>, uid: string, c: Category)
    ensures c in Loaded(docs, uid) <==> exists d :: d in docs && Loadable(d, uid) && c == ToCategory(d)
  {
    var p := (d: CategoryDoc) => Loadable(d, uid);
    var kept := Filter(docs, p);
    FilterMembers(docs, p);
    MapMembers(kept, ToCategory);
    if c in Loaded(docs, uid) {
      var k :| 0 <= k < |kept| && c == ToCategory(kept[k]);
      assert kept[k] in kept;
    }
    if exists d :: d in docs && Loadable(d, uid) && c == ToCategory(d) {
      var d :| d in docs && Loadable(d, uid) && c == ToCategory(d);
      assert d in kept;
      var k :| 0 <= k < |kept| && kept[k] == d;
    }
  }

  /** Appending a category whose name is new keeps the names unique. */
  lemma UniqueAfterAdd(cats: seq<Category>, c: Category)
    requires UniqueNames(cats) && !HasName(cats, c.nome)
    ensures UniqueNames(cats + [c])
  {
    var r := cats + [c];
    forall i, j | 0 <= i < j < |r| ensures r[i].nome != r[j].nome {
      if j == |cats| {
        assert r[i] == cats[i];
      }
    }
  }

  /** Removing every category of one name keeps the names unique. */
  lemma UniqueAfterWithout(cats: seq<Category>, nome: string)
    requires UniqueNames(cats)
    ensures UniqueNames(Without(cats, nome))
  {
    UniqueAfterFilter(cats, (c: Category) => c.nome != nome);
  }

  /** Dropping categories from a list with unique names keeps the names unique. */
  lemma {:induction false} UniqueAfterFilter(cats: seq<Category>, keep: Category -> bool)
    requires UniqueNames(cats)
    ensures UniqueNames(Filter(cats, keep))
  {
    if cats != [] {
      var rest := cats[1..];
      assert UniqueNames(rest) by {
        forall i, j | 0 <= i < j < |rest| ensures rest[i].nome != rest[j].nome {
          assert rest[i] == cats[i + 1] && rest[j] == cats[j + 1];
        }
      }
      UniqueAfterFilter(rest, keep);
      var tail := Filter(rest, keep);
      FilterMembers(rest, keep);
      if keep(cats[0]) {
        assert Filter(cats, keep) == [cats[0]] + tail;
        assert !HasName(tail, cats[0].nome) by {
          forall k | 0 <= k < |tail| ensures tail[k].nome != cats[0].nome {
            assert tail[k] in tail;
            var m :| 0 <= m < |rest| && rest[m] == tail[k];
            assert cats[m + 1] == tail[k];
          }
        }
        UniqueCons(cats[0], tail);
      } else {
        assert Filter(cats, keep) == tail;
      }
    }
  }

  /** Putting a category of a new name in front keeps the names unique. */
  lemma UniqueCons(c: Category, cats: seq<Category>)
    requires UniqueNames(cats) && !HasName(cats, c.nome)
    ensures UniqueNames([c] + cats)
  {
    var r := [c] + cats;
    forall i, j | 0 <= i < j < |r| ensures r[i].nome != r[j].nome {
      assert r[j] == cats[j - 1];
      if i > 0 {
        assert r[i] == cats[i - 1];
      }
    }
  }

  /** Removing a name no category carries changes nothing. */
  lemma WithoutAbsent(cats: seq<Category>, nome: string)
    requires !HasName(cats, nome)
    ensures Without(cats, nome) == cats
  {
    FilterAll(cats, (c: Category) => c.nome != nome);
  }

  /** A category appended under a new name is found with its icon. */
  lemma IconOfAdded(cats: seq<Category>, c: Category)
    requires !HasName(cats, c.nome)
    ensures IconOf(cats + [c], c.nome) == Some(c.icone)
  {
    var r := cats + [c];
    assert r[|cats|] == c;
    assert forall j :: 0 <= j < |cats| ==> r[j] == cats[j];
  }

  // ----- Submitting a record -----

  /**
   * A record as the form writes it. `valor` is `None` when the amount text
   * holds no digit (`parseInt` gives `NaN`); `gasto` and `icone` are `None`
   * (`null`) for anything but an expense.
   */
  datatype NewTransaction = NewTransaction(
    nome: string,
    valor: Option<nat>,
    setor: string,
    gasto: Option<string>,
    icone: Option<string>,
    descricao: string,
    userId: string,
    data: Moment)

  /**
   * The icon saved with a record: for an expense with a chosen category,
   * the icon of the first category of that name, if there is one.
   */
  function RecordIcon(setor: string, gasto: string, cats: seq<Category>): (r: Option<string>)
    ensures r.Some? <==> setor == "saida" && gasto != "" && HasName(cats, gasto)
    ensures r.Some? ==> r == IconOf(cats, gasto)
  {
    if setor == "saida" && gasto != "" then IconOf(cats, gasto) else None
  }

  datatype AddCategoryOutcome = MissingFields | AlreadyExists | NotAuthenticated | AddFailed | CategoryAdded(doc: CategoryDoc)

  datatype DeleteOutcome = Skipped | QueryFailed | Removed(userId: string, nome: string)

  datatype SubmitOutcome = MissingRequired | SubmitNotAuthenticated | SaveFailed | Saved(record: NewTransaction)

  /** The form's state: the record fields being typed and the category list with its dialogs. */
  class GreyBox {
    var setor: string
    var gasto: string
    var nomeGasto: string
    var valor: string
    var descricao: string
    var categorias: seq<Category>
    var novaCategoria: string
    var iconeSelecionado: string
    var modalExcluirVisible: bool
    var categoriaParaExcluir: Option<string>

    /** The form as it opens: everything empty, no dialog. */
    constructor ()
      ensures setor == "" && gasto == "" && nomeGasto == "" && valor == "" && descricao == ""
      ensures categorias == [] && novaCategoria == "" && iconeSelecionado == ""
      ensures !modalExcluirVisible && categoriaParaExcluir.None?
    {
      setor, gasto, nomeGasto, valor, descricao := "", "", "", "", "";
      categorias, novaCategoria, iconeSelecionado := [], "", "";
      modalExcluirVisible, categoriaParaExcluir := false, None;
    }

    /**
     * `carregarCategorias`: without an authenticated user, or when the query
     * fails (`snapshot` is `None`), nothing changes; otherwise the list
     * becomes the user's documents that have a name and an icon, in order.
     */
    method CarregarCategorias(user: Option<string>, snapshot: Option<seq<CategoryDoc>>)
      modifies this
      ensures Authenticated(user) && snapshot.Some? ==> categorias == Loaded(snapshot.value, user.value)
      ensures !(Authenticated(user) && snapshot.Some?) ==> categorias == old(categorias)
      ensures setor == old(setor) && gasto == old(gasto) && nomeGasto == old(nomeGasto)
      ensures valor == old(valor) && descricao == old(descricao)
      ensures novaCategoria == old(novaCategoria) && iconeSelecionado == old(iconeSelecionado)
      ensures modalExcluirVisible == old(modalExcluirVisible) && categoriaParaExcluir == old(categoriaParaExcluir)
    {
      if !Authenticated(user) || snapshot.None? {
        return;
      }
      var uid := user.value;
      var cats := CollectWhere(snapshot.value, (d: CategoryDoc) => Loadable(d, uid), ToCategory);
      categorias := cats;
    }

    /**
     * `adicionarCategoria`: the trimmed name and an icon are required, the
     * name must be new, the user authenticated and the write successful;
     * then the category is appended and the two inputs are cleared.
     * Otherwise nothing changes. Unique names stay unique.
     */
    method AdicionarCategoria(user: Option<string>, writeOk: bool) returns (outcome: AddCategoryOutcome)
      modifies this
      ensures outcome == MissingFields <==> Trim(old(novaCategoria)) == "" || old(iconeSelecionado) == ""
      ensures outcome == AlreadyExists <==>
        Trim(old(novaCategoria)) != "" && old(iconeSelecionado) != "" && HasName(old(categorias), Trim(old(novaCategoria)))
      ensures outcome == NotAuthenticated <==>
        Trim(old(novaCategoria)) != "" && old(iconeSelecionado) != "" && !HasName(old(categorias), Trim(old(novaCategoria)))
        && !Authenticated(user)
      ensures outcome == AddFailed <==>
        Trim(old(novaCategoria)) != "" && old(iconeSelecionado) != "" && !HasName(old(categorias), Trim(old(novaCategoria)))
        && Authenticated(user) && !writeOk
      ensures outcome.CategoryAdded? ==>
        outcome.doc == CategoryDoc(Trim(old(novaCategoria)), old(iconeSelecionado), user.value)
        && categorias == old(categorias) + [Category(Trim(old(novaCategoria)), old(iconeSelecionado))]
        && novaCategoria == "" && iconeSelecionado == ""
      ensures !outcome.CategoryAdded? ==>
        categorias == old(categorias) && novaCategoria == old(novaCategoria) && iconeSelecionado == old(iconeSelecionado)
      ensures UniqueNames(old(categorias)) ==> UniqueNames(categorias)
      ensures setor == old(setor) && gasto == old(gasto) && nomeGasto == old(nomeGasto)
      ensures valor == old(valor) && descricao == old(descricao)
      ensures modalExcluirVisible == old(modalExcluirVisible) && categoriaParaExcluir == old(categoriaParaExcluir)
    {
      var nomeTrim := Trim(novaCategoria);
      if nomeTrim == "" || iconeSelecionado == "" {
        return MissingFields;
      }
      if HasName(categorias, nomeTrim) {
        return AlreadyExists;
      }
      if !Authenticated(user) {
        return NotAuthenticated;
      }
      if !writeOk {
        return AddFailed;
      }
      var added := Category(nomeTrim, iconeSelecionado);
      if UniqueNames(categorias) {
        UniqueAfterAdd(categorias, added);
      }
      outcome := CategoryAdded(CategoryDoc(nomeTrim, iconeSelecionado, user.value));
      categorias := categorias + [added];
      novaCategoria := "";
      iconeSelecionado := "";
    }

    /** `pedirExcluirCategoria`: remember the name and open the confirmation dialog. */
    method PedirExcluirCategoria(cat: string)
      modifies this
      ensures categoriaParaExcluir == Some(cat) && modalExcluirVisible
      ensures categorias == old(categorias) && gasto == old(gasto)
      ensures setor == old(setor) && nomeGasto == old(nomeGasto) && valor == old(valor) && descricao == old(descricao)
      ensures novaCategoria == old(novaCategoria) && iconeSelecionado == old(iconeSelecionado)
    {
      categoriaParaExcluir := Some(cat);
      modalExcluirVisible := true;
    }

    /**
     * `excluirCategoria`: with no pending name or no authenticated user
     * nothing happens. When the query fails only the dialog closes. When
     * it succeeds the user's documents of that name are deleted, every
     * category of that name leaves the list, a selected category of that
     * name is cleared, and the dialog closes and forgets the name.
     */
    method ExcluirCategoria(user: Option<string>, queryOk: bool) returns (outcome: DeleteOutcome)
      modifies this
      ensures outcome == Skipped <==>
        old(categoriaParaExcluir).None? || old(categoriaParaExcluir) == Some("") || !Authenticated(user)
      ensures outcome == Skipped ==>
        categorias == old(categorias) && gasto == old(gasto)
        && modalExcluirVisible == old(modalExcluirVisible) && categoriaParaExcluir == old(categoriaParaExcluir)
      ensures outcome == QueryFailed <==> outcome != Skipped && !queryOk
      ensures outcome == QueryFailed ==>
        categorias == old(categorias) && gasto == old(gasto)
        && !modalExcluirVisible && categoriaParaExcluir == old(categoriaParaExcluir)
      ensures outcome.Removed? ==>
        outcome == Removed(user.value, old(categoriaParaExcluir).value)
        && categorias == Without(old(categorias), outcome.nome)
        && gasto == (if old(gasto) == outcome.nome then "" else old(gasto))
        && !modalExcluirVisible && categoriaParaExcluir.None?
      ensures UniqueNames(old(categorias)) ==> UniqueNames(categorias)
      ensures setor == old(setor) && nomeGasto == old(nomeGasto) && valor == old(valor) && descricao == old(descricao)
      ensures novaCategoria == old(novaCategoria) && iconeSelecionado == old(iconeSelecionado)
    {
      if categoriaParaExcluir.None? || categoriaParaExcluir.value == "" || !Authenticated(user) {
        return Skipped;
      }
      if !queryOk {
        modalExcluirVisible := false;
        return QueryFailed;
      }
      var nome := categoriaParaExcluir.value;
      if UniqueNames(categorias) {
        UniqueAfterWithout(categorias, nome);
      }
      categorias := Without(categorias, nome);
      if gasto == nome {
        gasto := "";
      }
      modalExcluirVisible := false;
      categoriaParaExcluir := None;
      return Removed(user.value, nome);
    }

    /**
     * `handleSubmit`: name, amount text and sector are required and the user
     * must be authenticated. The record carries the cents spelt by the
     * digits of the amount text, the category and its icon only for an
     * expense, and the current moment. After a successful write the five
     * record fields are cleared; otherwise nothing changes.
     */
    method HandleSubmit(user: Option<string>, now: Moment, writeOk: bool) returns (outcome: SubmitOutcome)
      modifies this
      ensures outcome == MissingRequired <==> old(nomeGasto) == "" || old(valor) == "" || old(setor) == ""
      ensures outcome == SubmitNotAuthenticated <==> outcome != MissingRequired && !Authenticated(user)
      ensures outcome == SaveFailed <==> outcome != MissingRequired && Authenticated(user) && !writeOk
      ensures outcome.Saved? ==>
        var rec := outcome.record;
        rec.nome == old(nomeGasto) && rec.valor == ParseCents(old(valor)) && rec.setor == old(setor)
        && (rec.gasto.Some? <==> old(setor) == "saida")
        && (rec.gasto.Some? ==> rec.gasto.value == old(gasto))
        && rec.icone == RecordIcon(old(setor), old(gasto), old(categorias))
        && rec.descricao == old(descricao) && rec.userId == user.value && rec.data == now
      ensures outcome.Saved? ==> nomeGasto == "" && valor == "" && setor == "" && gasto == "" && descricao == ""
      ensures !outcome.Saved? ==>
        nomeGasto == old(nomeGasto) && valor == old(valor) && setor == old(setor)
        && gasto == old(gasto) && descricao == old(descricao)
      ensures categorias == old(categorias) && novaCategoria == old(novaCategoria) && iconeSelecionado == old(iconeSelecionado)
      ensures modalExcluirVisible == old(modalExcluirVisible) && categoriaParaExcluir == old(categoriaParaExcluir)
    {
      if nomeGasto == "" || valor == "" || setor == "" {
        return MissingRequired;
      }
      var valorEmCentavos := ParseCents(valor);
      if !Authenticated(user) {
        return SubmitNotAuthenticated;
      }
      var iconeGasto := RecordIcon(setor, gasto, categorias);
      var rec := NewTransaction(
        nome := nomeGasto,
        valor := valorEmCentavos,
        setor := setor,
        gasto := if setor == "saida" then Some(gasto) else None,
        icone := if setor == "saida" then iconeGasto else None,
        descricao := descricao,
        userId := user.value,
        data := now);
      if !writeOk {
        return SaveFailed;
      }
      nomeGasto, valor, setor, gasto, descricao := "", "", "", "", "";
      return Saved(rec);
    }
  }
}
