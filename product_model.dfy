/** `productSchema` of lib/models/product.ts: the fields a product document carries, the
    defaults and trimming applied when one is created, the validators it must pass, and the
    sparse unique index on `sku`. */
module ProductModel {
  import opened Wrappers
  import opened Text
  import opened Time

  /** A stored product document. */
  datatype Product = Product(
    id: string,
    title: string,
    price: int,
    category: string,
    subCategory: Option<string>,
    discount: int,
    imageUrl: string,
    benefits: seq<string>,
    stock: int,
    brand: Option<string>,
    sku: Option<string>,
    etiquette: Option<string>,
    description: Option<string>,
    usage: Option<string>,
    createdAt: Instant,
    updatedAt: Instant)

  /** The body handed to `Product.create`: every field may be missing. */
  datatype ProductDraft = ProductDraft(
    title: Option<string>,
    price: Option<int>,
    category: Option<string>,
    subCategory: Option<string>,
    discount: Option<int>,
    imageUrl: Option<string>,
    benefits: seq<string>,
    stock: Option<int>,
    brand: Option<string>,
    sku: Option<string>,
    etiquette: Option<string>,
    description: Option<string>,
    usage: Option<string>)

  const DefaultDiscount: int := 0

  function TrimOpt(s: Option<string>): Option<string> {
    match s
    case None => None
    case Some(v) => Some(Trim(v))
  }

  predicate TrimmedOpt(s: Option<string>) {
    s.None? || IsTrimmed(s.value)
  }

  /** A mongoose `required` string validator: present and not empty. */
  predicate Present(s: Option<string>) {
    s.Some? && s.value != ""
  }

  /** What every stored product satisfies: the required fields are set, `price >= 0`,
      `stock >= 0`, `discount` in [0, 100], and every `trim: true` field is stored trimmed. */
  predicate Valid(p: Product) {
    && p.title != "" && p.category != "" && p.imageUrl != ""
    && p.price >= 0 && p.stock >= 0
    && 0 <= p.discount <= 100
    && IsTrimmed(p.title) && IsTrimmed(p.category)
    && TrimmedOpt(p.subCategory) && TrimmedOpt(p.brand) && TrimmedOpt(p.sku)
    && TrimmedOpt(p.etiquette) && TrimmedOpt(p.description) && TrimmedOpt(p.usage)
    && (forall i :: 0 <= i < |p.benefits| ==> IsTrimmed(p.benefits[i]))
  }

  function TrimAll(bs: seq<string>): (r: seq<string>)
    ensures |r| == |bs|
    ensures forall i :: 0 <= i < |r| ==> r[i] == Trim(bs[i])
  {
    seq(|bs|, i requires 0 <= i < |bs| => Trim(bs[i]))
  }

  /** `Product.create(body)`: cast and trim the fields, apply the `discount` default of 0, run the
      validators; `None` when validation fails. `id` and `now` are chosen by the database. */
  function Create(d: ProductDraft, id: string, now: Instant): (r: Option<Product>)
    ensures r.Some? <==>
      && Present(TrimOpt(d.title)) && Present(TrimOpt(d.category)) && Present(d.imageUrl)
      && d.price.Some? && d.price.value >= 0
      && d.stock.Some? && d.stock.value >= 0
      && 0 <= d.discount.GetOr(DefaultDiscount) <= 100
    ensures r.Some? ==> Valid(r.value)
    ensures r.Some? ==>
      && r.value.id == id && r.value.createdAt == now && r.value.updatedAt == now
      && r.value.title == Trim(d.title.value) && r.value.category == Trim(d.category.value)
      && r.value.imageUrl == d.imageUrl.value
      && r.value.price == d.price.value && r.value.stock == d.stock.value
      && r.value.discount == d.discount.GetOr(DefaultDiscount)
      && r.value.benefits == TrimAll(d.benefits)
      && r.value.sku == TrimOpt(d.sku) && r.value.brand == TrimOpt(d.brand)
  {
    var title, category := TrimOpt(d.title), TrimOpt(d.category);
    var discount := d.discount.GetOr(DefaultDiscount);
    if Present(title) && Present(category) && Present(d.imageUrl)
       && d.price.Some? && d.price.value >= 0 && d.stock.Some? && d.stock.value >= 0
       && 0 <= discount <= 100
    then
      TrimmedFields(d);
      Some(Product(id, title.value, d.price.value, category.value, TrimOpt(d.subCategory),
                   discount, d.imageUrl.value, TrimAll(d.benefits), d.stock.value,
                   TrimOpt(d.brand), TrimOpt(d.sku), TrimOpt(d.etiquette),
                   TrimOpt(d.description), TrimOpt(d.usage), now, now))
    else None
  }

  lemma TrimOptTrimmed(s: Option<string>)
    ensures TrimmedOpt(TrimOpt(s))
  {
    if s.Some? {
      TrimIsTrimmed(s.value);
    }
  }

  lemma TrimmedFields(d: ProductDraft)
    ensures d.title.Some? ==> IsTrimmed(Trim(d.title.value))
    ensures d.category.Some? ==> IsTrimmed(Trim(d.category.value))
    ensures TrimmedOpt(TrimOpt(d.subCategory)) && TrimmedOpt(TrimOpt(d.brand))
    ensures TrimmedOpt(TrimOpt(d.sku)) && TrimmedOpt(TrimOpt(d.etiquette))
    ensures TrimmedOpt(TrimOpt(d.description)) && TrimmedOpt(TrimOpt(d.usage))
    ensures forall i :: 0 <= i < |d.benefits| ==> IsTrimmed(TrimAll(d.benefits)[i])
  {
    if d.title.Some? { TrimIsTrimmed(d.title.value); }
    if d.category.Some? { TrimIsTrimmed(d.category.value); }
    TrimOptTrimmed(d.subCategory);
    TrimOptTrimmed(d.brand);
    TrimOptTrimmed(d.sku);
    TrimOptTrimmed(d.etiquette);
    TrimOptTrimmed(d.description);
    TrimOptTrimmed(d.usage);
    forall i | 0 <= i < |d.benefits| ensures IsTrimmed(TrimAll(d.benefits)[i]) {
      TrimIsTrimmed(d.benefits[i]);
    }
  }

  /** The fields of a stored product, submitted again as a body. */
  function ToDraft(p: Product): ProductDraft {
    ProductDraft(Some(p.title), Some(p.price), Some(p.category), p.subCategory, Some(p.discount),
                 Some(p.imageUrl), p.benefits, Some(p.stock), p.brand, p.sku, p.etiquette,
                 p.description, p.usage)
  }

  lemma TrimOptOfTrimmed(s: Option<string>)
    requires TrimmedOpt(s)
    ensures TrimOpt(s) == s
  {
    if s.Some? {
      TrimOfTrimmed(s.value);
    }
  }

  /** Creating a product from a valid product's own fields stores that product again: the
      defaults and the trimming change nothing on stored values. */
  lemma {:induction false} CreateOfValid(p: Product)
    requires Valid(p)
    ensures Create(ToDraft(p), p.id, p.updatedAt) == Some(p.(createdAt := p.updatedAt))
  {
    TrimOfTrimmed(p.title);
    TrimOfTrimmed(p.category);
    TrimOptOfTrimmed(p.subCategory);
    TrimOptOfTrimmed(p.brand);
    TrimOptOfTrimmed(p.sku);
    TrimOptOfTrimmed(p.etiquette);
    TrimOptOfTrimmed(p.description);
    TrimOptOfTrimmed(p.usage);
    forall i | 0 <= i < |p.benefits| ensures TrimAll(p.benefits)[i] == p.benefits[i] {
      TrimOfTrimmed(p.benefits[i]);
    }
    assert TrimAll(p.benefits) == p.benefits;
  }

  /** A body without `discount` is stored with discount 0. */
  lemma DiscountDefaultsToZero(d: ProductDraft, id: string, now: Instant)
    requires d.discount.None?
    requires Create(d, id, now).Some?
    ensures Create(d, id, now).value.discount == 0
  {
  }

  // ---------------------------------------------------------------- the sku index

  /** The sparse unique index on `sku`: products that have a sku have pairwise distinct skus;
      products without one are not constrained. */
  predicate SkusUnique(ps: seq<Product>) {
    forall i, j :: 0 <= i < j < |ps| && ps[i].sku.Some? && ps[j].sku.Some? ==>
      ps[i].sku.value != ps[j].sku.value
  }

  /** No stored product already uses the sku `p` carries, if it carries one. */
  predicate SkuFree(ps: seq<Product>, p: Product) {
    p.sku.None? || forall q :: q in ps ==> q.sku != p.sku
  }

  /** Inserting a product whose sku is free keeps the index unique; a product without a sku is
      always free, however many others lack one. */
  lemma InsertKeepsSkusUnique(ps: seq<Product>, p: Product)
    requires SkusUnique(ps) && SkuFree(ps, p)
    ensures SkusUnique(ps + [p])
  {
    var qs := ps + [p];
    forall i, j | 0 <= i < j < |qs| && qs[i].sku.Some? && qs[j].sku.Some?
      ensures qs[i].sku.value != qs[j].sku.value
    {
      if j == |ps| {
        assert qs[i] in ps;
      } else {
        assert qs[i] == ps[i] && qs[j] == ps[j];
      }
    }
  }

  /** A collection in which every product lacks a sku satisfies the index, whatever its size. */
  lemma WithoutSkusUnconstrained(ps: seq<Product>)
    requires forall i :: 0 <= i < |ps| ==> ps[i].sku.None?
    ensures SkusUnique(ps)
  {
  }
}
