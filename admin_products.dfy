/** The product management page (src/pages/admin/AdminProductsPage.tsx): the admin search,
    the add / edit form and its validation, and the handlers that hand the result to the
    catalogue store. Form fields are the strings the inputs hold; price and stock are
    read back with `parseFloat` and `parseInt`. */
module AdminProducts {
  import opened Wrappers
  import opened Seqs
  import opened Text
  import opened Numbers
  import opened Catalog

  /** The image a product added without an image URL gets. */
  const PlaceholderImage: string := "https://placehold.co/600x400?text=Gaming+Accessory"

  /** `formData`: every product field as the dialog holds it. */
  datatype ProductForm = ProductForm(
    name: string,
    description: string,
    price: string,
    category: string,
    imageUrl: string,
    stock: string,
    featured: bool)

  /** The blank form the add dialog opens with. */
  const EmptyForm: ProductForm := ProductForm("", "", "", "", "", "", false)

  /** The text inputs of the form, by their `name` attribute. */
  datatype Field = Name | Description | Price | Category | ImageUrl | Stock

  /** Why a submission is refused: a required field is empty, or the price is not a
      number (the browser's number input does not let such a price through). */
  datatype Rejection = MissingRequiredFields | PriceNotNumeric

  /** `handleInputChange`: the input named `field` now holds `value`. */
  function SetField(f: ProductForm, field: Field, value: string): ProductForm {
    match field
    case Name => f.(name := value)
    case Description => f.(description := value)
    case Price => f.(price := value)
    case Category => f.(category := value)
    case ImageUrl => f.(imageUrl := value)
    case Stock => f.(stock := value)
  }

  /** The admin search: the lower-cased term occurs in the lower-cased name or
      category. */
  predicate MatchesAdminSearch(p: Product, term: string) {
    Includes(Lower(p.name), Lower(term)) || Includes(Lower(p.category), Lower(term))
  }

  function AdminSearchFilter(term: string): Product -> bool {
    (p: Product) => MatchesAdminSearch(p, term)
  }

  /** `filteredProducts`. */
  function AdminSearch(ps: seq<Product>, term: string): (r: seq<Product>)
    ensures forall p :: p in r ==> p in ps && MatchesAdminSearch(p, term)
    ensures forall p :: p in ps && MatchesAdminSearch(p, term) ==> p in r
  {
    Filter(ps, AdminSearchFilter(term))
  }

  /** The search keeps the catalogue order and the multiplicity of each product it
      keeps, and an empty term lists every product. */
  lemma AdminSearchKeepsOrder(ps: seq<Product>, term: string)
    ensures IsSubseq(AdminSearch(ps, term), ps)
    ensures forall p :: multiset(AdminSearch(ps, term))[p] ==
              if MatchesAdminSearch(p, term) then multiset(ps)[p] else 0
    ensures term == "" ==> AdminSearch(ps, term) == ps
  {
    FilterExactly(ps, AdminSearchFilter(term));
    if term == "" {
      forall p | p in ps ensures MatchesAdminSearch(p, term) {
        IncludesEmpty(Lower(p.name));
      }
      FilterKeepsAll(ps, AdminSearchFilter(term));
    }
  }

  /** The check both submit handlers start with: name, price and category must be
      filled in. */
  predicate MissingRequired(f: ProductForm) {
    f.name == "" || f.price == "" || f.category == ""
  }

  /** `parseInt(stock) || 0`: a stock that is not a number (or is blank) counts as 0. */
  function FormStock(stock: string): int {
    ParseInt(stock).GetOr(0)
  }

  /** The product fields a submitted form describes, with the image URL given, or why
      the form is refused. */
  function ReadForm(f: ProductForm, imageUrl: string): Result<ProductFields, Rejection> {
    if MissingRequired(f) then Failure(MissingRequiredFields)
    else match ParseCents(f.price)
      case None => Failure(PriceNotNumeric)
      case Some(price) =>
        Success(ProductFields(f.name, f.description, price, f.category, imageUrl, FormStock(f.stock), f.featured))
  }

  /** `handleSubmitAdd`'s new product: refused when a required field is empty (that check
      comes first) or the price is not a number; otherwise a product that always has an
      image, the one given when there is one. */
  function NewProduct(f: ProductForm): (r: Result<ProductFields, Rejection>)
    ensures r.Failure? <==> MissingRequired(f) || ParseCents(f.price).None?
    ensures r.Failure? ==> (r.error == MissingRequiredFields <==> MissingRequired(f))
    ensures r.Success? ==> r.value.name == f.name && r.value.category == f.category
    ensures r.Success? ==> r.value.name != "" && r.value.category != ""
    ensures r.Success? ==> r.value.description == f.description && r.value.featured == f.featured
    ensures r.Success? ==> r.value.price == ParseCents(f.price).value
    ensures r.Success? ==> r.value.imageUrl == if f.imageUrl != "" then f.imageUrl else PlaceholderImage
    ensures r.Success? ==> r.value.imageUrl != ""
    ensures r.Success? ==> r.value.stock == if ParseInt(f.stock).Some? then ParseInt(f.stock).value else 0
  {
    ReadForm(f, if f.imageUrl != "" then f.imageUrl else PlaceholderImage)
  }

  /** `handleSubmitEdit`'s updated product: refused exactly when an added product would
      be; otherwise the product being edited, under its own id, with the form's fields
      and the image URL as typed (no placeholder). The stock is read as the add dialog
      reads it (see `EditWithBlankStock` for the code as written). */
  function EditedProduct(editing: Product, f: ProductForm): (r: Result<Product, Rejection>)
    ensures r.Failure? <==> NewProduct(f).Failure?
    ensures r.Failure? ==> r.error == NewProduct(f).error
    ensures r.Success? ==> r.value.id == editing.id && r.value.imageUrl == f.imageUrl
    ensures r.Success? ==> r.value.name == f.name && r.value.description == f.description &&
                           r.value.category == f.category && r.value.featured == f.featured
    ensures r.Success? ==> r.value.price == ParseCents(f.price).value
    ensures r.Success? ==> r.value.stock == if ParseInt(f.stock).Some? then ParseInt(f.stock).value else 0
    ensures r.Success? ==> r.value.Fields() == NewProduct(f).value.(imageUrl := f.imageUrl)
  {
    match ReadForm(f, f.imageUrl)
    case Failure(e) => Failure(e)
    case Success(fields) => Success(fields.WithId(editing.id))
  }

  /** `handleEditProduct`'s form: name, description, category, image URL and featured
      flag copied unchanged, price and stock printed with `toString` so that they parse
      back to the product's own values. */
  function FormOf(p: Product): (f: ProductForm)
    ensures f.name == p.name && f.description == p.description && f.category == p.category
    ensures f.imageUrl == p.imageUrl && f.featured == p.featured
    ensures f.price == CentsToString(p.price) && f.stock == IntToString(p.stock)
  {
    ProductForm(p.name, p.description, CentsToString(p.price), p.category, p.imageUrl, IntToString(p.stock), p.featured)
  }

  /** The price and stock printed into the edit form parse back to the product's own
      price and stock, and the printed price is never blank. */
  lemma FormOfParsesBack(p: Product)
    ensures ParseCents(FormOf(p).price) == Some(p.price) && FormOf(p).price != ""
    ensures ParseInt(FormOf(p).stock) == Some(p.stock)
  {
    ParseCentsOfToString(p.price);
    ParseIntOfToString(p.stock);
  }

  /** Opening a product for editing and saving the form untouched gives back the same
      product, as long as it has the name and category the form requires. */
  lemma EditUnchangedKeepsProduct(p: Product)
    requires p.name != "" && p.category != ""
    ensures EditedProduct(p, FormOf(p)) == Success(p)
  {
    FormOfParsesBack(p);
  }

  /** A product's form submitted through the add dialog adds a copy of the product's
      fields, when it has an image (otherwise the placeholder is put in). */
  lemma AddCopiedFormCopiesProduct(p: Product)
    requires p.name != "" && p.category != ""
    ensures p.imageUrl != "" ==> NewProduct(FormOf(p)) == Success(p.Fields())
    ensures p.imageUrl == "" ==> NewProduct(FormOf(p)) == Success(p.Fields().(imageUrl := PlaceholderImage))
  {
    FormOfParsesBack(p);
  }

  /** `parseInt(formData.stock)` as the edit handler writes it, without `|| 0`: `None`
      stands for the `NaN` it yields for a blank or non-numeric stock. */
  function EditedStockAsWritten(stock: string): (r: Option<int>)
    ensures stock == "" ==> r.None?
    ensures r.Some? ==> FormStock(stock) == r.value
    ensures r.None? ==> FormStock(stock) == 0
  {
    ParseInt(stock)
  }

  /** Clearing the stock field of a product being edited passes validation, and the edit
      handler as written then stores `NaN` as its stock, where the add handler (and the
      corrected `EditedProduct`) store 0. */
  lemma EditWithBlankStock(p: Product)
    requires p.name != "" && p.category != ""
    ensures var f := FormOf(p).(stock := "");
            && EditedProduct(p, f).Success?
            && EditedStockAsWritten(f.stock).None?
            && EditedProduct(p, f).value.stock == 0
  {
    FormOfParsesBack(p);
  }

  /** Which dialog result the edit handler ends in. */
  datatype EditOutcome = NothingToEdit | EditRejected(reason: Rejection) | Saved(product: Product)

  /** The page's state: the form, the product being edited and which dialog is open,
      over the catalogue store it hands products to. */
  class AdminPanel {
    const store: ProductStore
    var form: ProductForm
    var editing: Option<Product>
    var addOpen: bool
    var editOpen: bool

    constructor(store: ProductStore)
      ensures this.store == store && form == EmptyForm && editing == None && !addOpen && !editOpen
    {
      this.store := store;
      form := EmptyForm;
      editing := None;
      addOpen := false;
      editOpen := false;
    }

    /** `handleInputChange`. */
    method ChangeInput(field: Field, value: string)
      modifies this
      ensures form == SetField(old(form), field, value)
      ensures editing == old(editing) && addOpen == old(addOpen) && editOpen == old(editOpen)
    {
      form := SetField(form, field, value);
    }

    /** `handleSwitchChange`. */
    method ChangeFeatured(checked: bool)
      modifies this
      ensures form == old(form).(featured := checked)
      ensures editing == old(editing) && addOpen == old(addOpen) && editOpen == old(editOpen)
    {
      form := form.(featured := checked);
    }

    /** `handleAddProduct`: a blank form in the add dialog. */
    method OpenAdd()
      modifies this
      ensures form == EmptyForm && addOpen
      ensures editing == old(editing) && editOpen == old(editOpen)
    {
      form := EmptyForm;
      addOpen := true;
    }

    /** `handleEditProduct`: the product's form in the edit dialog. */
    method OpenEdit(p: Product)
      modifies this
      ensures form == FormOf(p) && editing == Some(p) && editOpen
      ensures addOpen == old(addOpen)
    {
      form := FormOf(p);
      editing := Some(p);
      editOpen := true;
    }

    /** `handleSubmitAdd` with the new id supplied: a refused form adds nothing and
        leaves the dialog open; an accepted one is appended and the dialog closes. */
    method SubmitAdd(newId: string) returns (refused: Option<Rejection>)
      modifies this, store
      ensures NewProduct(old(form)).Failure? ==>
                refused == Some(NewProduct(old(form)).error) &&
                store.products == old(store.products) && addOpen == old(addOpen)
      ensures NewProduct(old(form)).Success? ==>
                refused == None && !addOpen &&
                store.products == old(store.products) + [NewProduct(old(form)).value.WithId(newId)]
      ensures form == old(form) && editing == old(editing) && editOpen == old(editOpen)
    {
      var built := NewProduct(form);
      if built.Failure? {
        return Some(built.error);
      }
      store.AddProduct(built.value, newId);
      addOpen := false;
      refused := None;
    }

    /** `handleSubmitEdit`: nothing happens without a product being edited; a refused
        form changes nothing; an accepted one replaces the records with the edited
        product's id and closes the dialog. */
    method SubmitEdit() returns (outcome: EditOutcome)
      modifies this, store
      ensures old(editing).None? ==> outcome == NothingToEdit && store.products == old(store.products)
      ensures old(editing).Some? ==>
                var r := EditedProduct(old(editing).value, old(form));
                && (r.Failure? ==> outcome == EditRejected(r.error) && store.products == old(store.products))
                && (r.Success? ==> outcome == Saved(r.value) &&
                                   store.products == ReplaceById(old(store.products), r.value))
      ensures outcome.Saved? ==> !editOpen
      ensures !outcome.Saved? ==> editOpen == old(editOpen)
      ensures form == old(form) && editing == old(editing) && addOpen == old(addOpen)
    {
      if editing.None? {
        return NothingToEdit;
      }
      var r := EditedProduct(editing.value, form);
      if r.Failure? {
        return EditRejected(r.error);
      }
      store.UpdateProduct(r.value);
      editOpen := false;
      outcome := Saved(r.value);
    }

    /** `handleDeleteProduct`, with the answer to the confirmation prompt as a
        parameter. */
    method Delete(id: string, confirmed: bool)
      modifies store
      ensures confirmed ==> store.products == RemoveById(old(store.products), id)
      ensures !confirmed ==> store.products == old(store.products)
    {
      if confirmed {
        store.DeleteProduct(id);
      }
    }
  }

  /** A saved edit of a product that is in the catalogue is found again under its id
      with the new fields: the edit keeps the id, so the store replaces that record. */
  lemma SavedEditIsFound(ps: seq<Product>, editing: Product, f: ProductForm)
    requires HasId(ps, editing.id) && EditedProduct(editing, f).Success?
    ensures FindById(ReplaceById(ps, EditedProduct(editing, f).value), editing.id)
            == Some(EditedProduct(editing, f).value)
  {
    UpdateThenFind(ps, EditedProduct(editing, f).value);
  }
}
