/** The category table of lib/data.ts. */
module Catalog {
  import opened Wrappers

  datatype Subcategory = Subcategory(id: string, title: string, slug: string)

  /** A category; `subcategories` is an optional property. */
  datatype Category = Category(id: string, title: string, slug: string, subcategories: Option<seq<Subcategory>>)

  /** lib/data.ts:14-117. */
  const Categories: seq<Category> := [
    Category("hnjs12k", "Tisane", "tisane", Some([
      Subcategory("nxhapie", "Detox", "detox"),
      Subcategory("vqpaxj", "Digestive", "digestive")])),
    Category("asdfgh", "Savon", "savon", Some([Subcategory("tyaw9e", "Op", "op")])),
    Category("zxcvbn", "Cheveux", "cheveux", None),
    Category("pacf9l4", "Huile", "huile", Some([
      Subcategory("bzparer", "Huile barbe", "huile-barbe"),
      Subcategory("zpqadi", "Huile cheveux", "huile-cheveux")])),
    Category("nzpwtb", "Baume", "baume", Some([
      Subcategory("zvalpqvxj", "Baume à barbe", "huile-a-barbe"),
      Subcategory("xpaceioa", "Baume pour cheveux", "baume-pour-cheveux")])),
    Category("gyg6k6h", "Gomme à lèvres", "gomme-a-levres", None),
    Category("jnxk4j", "Soin du visage", "soin-du-visage", None),
    Category("lzqp9t", "Bain & Corps", "bain-corps", None),
    Category("g5j6m0", "Korean Cosmetics", "korean-cosmetics", None),
    Category("b51k0j", "Bebe & Maman", "bebe-maman", None),
    Category("h6j7n1", "Sexualité", "sexualite", None)
  ]

  /** `cs.find(c => c.slug === slug)`: the first category with that slug. */
  function FindBySlug(cs: seq<Category>, slug: string): (r: Option<Category>)
    ensures r.Some? ==> r.value in cs && r.value.slug == slug
    ensures r.None? <==> forall c :: c in cs ==> c.slug != slug
    ensures cs != [] && cs[0].slug == slug ==> r == Some(cs[0])
  {
    if cs == [] then None
    else if cs[0].slug == slug then Some(cs[0])
    else
      var r := FindBySlug(cs[1..], slug);
      assert forall c :: c in cs ==> c == cs[0] || c in cs[1..];
      r
  }

  /** `categories.find(...)?.subcategories`: the list of the category with that slug, or `None`
      when the category has none or does not exist. */
  function SubcategoriesOf(slug: string): Option<seq<Subcategory>> {
    match FindBySlug(Categories, slug)
    case None => None
    case Some(c) => c.subcategories
  }

  /** A category whose slug no earlier category carries is the one found for that slug. */
  lemma {:induction false} FindFirst(cs: seq<Category>, i: nat)
    requires i < |cs| && forall j :: 0 <= j < i ==> cs[j].slug != cs[i].slug
    ensures FindBySlug(cs, cs[i].slug) == Some(cs[i])
  {
    if i > 0 {
      assert cs[1..][i - 1] == cs[i];
      FindFirst(cs[1..], i - 1);
    }
  }

  /** The slugs of the categories that carry subcategories. */
  const WithSubcategories: set<string> := {"tisane", "savon", "huile", "baume"}

  /** The table entry by entry: a category has subcategories exactly when its slug is one of
      those four. */
  lemma TableEntries(i: nat)
    requires i < |Categories|
    ensures Categories[i].subcategories.Some? <==> Categories[i].slug in WithSubcategories
  {
    if i < 5 {
      assert Categories[2].slug == "cheveux";
    } else {
      assert Categories[i].subcategories.None?;
    }
  }

  /** Exactly tisane, savon, huile and baume have subcategories. */
  lemma WhichHaveSubcategories(slug: string)
    ensures SubcategoriesOf(slug).Some? <==> slug in WithSubcategories
  {
    if i :| 0 <= i < |Categories| && Categories[i].slug == slug {
      SlugsDistinct();
      FindFirst(Categories, i);
      TableEntries(i);
    } else {
      assert Categories[0].slug == "tisane" && Categories[1].slug == "savon";
      assert Categories[3].slug == "huile" && Categories[4].slug == "baume";
    }
  }

  lemma SubcategoryExamples()
    ensures SubcategoriesOf("tisane") == Some([Subcategory("nxhapie", "Detox", "detox"), Subcategory("vqpaxj", "Digestive", "digestive")])
    ensures SubcategoriesOf("savon") == Some([Subcategory("tyaw9e", "Op", "op")])
    ensures SubcategoriesOf("cheveux") == None
    ensures SubcategoriesOf("parfum") == None
  {
    assert Categories[0].slug == "tisane";
    assert Categories[1].slug == "savon";
    assert Categories[2].slug == "cheveux";
    assert forall c :: c in Categories ==> c.slug != "parfum";
  }

  /** No two categories share a slug, so the lookup never depends on the table's order. */
  lemma SlugsDistinct()
    ensures forall i, j :: 0 <= i < j < |Categories| ==> Categories[i].slug != Categories[j].slug
  {
  }
}

/** The new-product form (app/dashboard/products/new/page.tsx): the list of benefits being
    edited, the subcategories offered for the chosen category, and the payload submitted. */
module NewProductPage {
  import opened Wrappers
  import opened Text
  import opened ListQuery
  import opened ProductModel
  import opened Catalog
  import opened Time

  datatype Benefit = Benefit(id: string, value: string)

  /** `benefits.map(b => b.id === id ? { ...b, value } : b)`. */
  function SetValue(bs: seq<Benefit>, id: string, value: string): (r: seq<Benefit>)
    ensures |r| == |bs|
    ensures forall i :: 0 <= i < |bs| ==> r[i].id == bs[i].id
    ensures forall i :: 0 <= i < |bs| ==> r[i].value == (if bs[i].id == id then value else bs[i].value)
  {
    seq(|bs|, i requires 0 <= i < |bs| => if bs[i].id == id then bs[i].(value := value) else bs[i])
  }

  function WithoutId(bs: seq<Benefit>, id: string): seq<Benefit> {
    Filter(bs, (b: Benefit) => b.id != id)
  }

  /** Removing keeps every other benefit and drops every benefit with that id. */
  lemma RemoveSpec(bs: seq<Benefit>, id: string)
    ensures forall b :: b in WithoutId(bs, id) <==> b in bs && b.id != id
    ensures |WithoutId(bs, id)| <= |bs|
  {
    forall b | b in bs && b.id != id ensures b in WithoutId(bs, id) {
      FilterComplete(bs, (b: Benefit) => b.id != id, b);
    }
  }

  /** Removing an id that is not in the list changes nothing. */
  lemma RemoveAbsent(bs: seq<Benefit>, id: string)
    requires forall b :: b in bs ==> b.id != id
    ensures WithoutId(bs, id) == bs
  {
    FilterAll(bs, (b: Benefit) => b.id != id);
  }

  /** Removing keeps the relative order of what remains: removing from a concatenation removes
      from each part. */
  lemma RemoveKeepsOrder(a: seq<Benefit>, b: seq<Benefit>, id: string)
    ensures WithoutId(a + b, id) == WithoutId(a, id) + WithoutId(b, id)
  {
    FilterConcat(a, b, (x: Benefit) => x.id != id);
  }

  function TrimmedValues(bs: seq<Benefit>): (r: seq<string>)
    ensures |r| == |bs|
    ensures forall i :: 0 <= i < |bs| ==> r[i] == Trim(bs[i].value)
  {
    seq(|bs|, i requires 0 <= i < |bs| => Trim(bs[i].value))
  }

  /** Lines 100-102: the trimmed values, empty ones dropped. */
  function ValidBenefits(bs: seq<Benefit>): seq<string> {
    Filter(TrimmedValues(bs), (v: string) => |v| > 0)
  }

  /** Every kept value is non-empty and trimmed, there are no more of them than benefits, and a
      benefit with a non-blank value is kept. */
  lemma ValidBenefitsSpec(bs: seq<Benefit>)
    ensures |ValidBenefits(bs)| <= |bs|
    ensures forall v :: v in ValidBenefits(bs) ==> v != "" && IsTrimmed(v)
    ensures forall i :: 0 <= i < |bs| && Trim(bs[i].value) != "" ==> Trim(bs[i].value) in ValidBenefits(bs)
  {
    var t := TrimmedValues(bs);
    forall v | v in ValidBenefits(bs) ensures v != "" && IsTrimmed(v) {
      var i :| 0 <= i < |t| && t[i] == v;
      TrimIsTrimmed(bs[i].value);
    }
    forall i | 0 <= i < |bs| && Trim(bs[i].value) != "" ensures Trim(bs[i].value) in ValidBenefits(bs) {
      assert t[i] == Trim(bs[i].value);
      FilterComplete(t, (v: string) => |v| > 0, t[i]);
    }
  }

  /** The kept values come in the order of their benefits. */
  lemma ValidBenefitsOrder(a: seq<Benefit>, b: seq<Benefit>)
    ensures ValidBenefits(a + b) == ValidBenefits(a) + ValidBenefits(b)
  {
    assert TrimmedValues(a + b) == TrimmedValues(a) + TrimmedValues(b);
    FilterConcat(TrimmedValues(a), TrimmedValues(b), (v: string) => |v| > 0);
  }

  /** The server's trimming leaves the submitted benefits as they are. */
  lemma ValidBenefitsStoredAsIs(bs: seq<Benefit>)
    ensures TrimAll(ValidBenefits(bs)) == ValidBenefits(bs)
  {
    var vs := ValidBenefits(bs);
    ValidBenefitsSpec(bs);
    forall i | 0 <= i < |vs| ensures TrimAll(vs)[i] == vs[i] {
      assert vs[i] in vs;
      TrimOfTrimmed(vs[i]);
    }
  }

  /** `formData`, with `price`, `discount` and `stock` already through `parseFloat`/`parseInt`:
      `None` is NaN. */
  datatype FormData = FormData(
    title: string,
    price: Option<int>,
    category: string,
    subCategory: string,
    discount: Option<int>,
    imageUrl: string,
    stock: Option<int>,
    brand: string,
    sku: string,
    etiquette: string,
    description: string,
    usage: string)

  /** Lines 104-110: the body posted to `/api/products`. Every text field is sent as typed, an
      empty one as ""; a NaN number is serialised as `null`, a missing value; `discount` falls
      back to 0. */
  function Payload(f: FormData, bs: seq<Benefit>): (d: ProductDraft)
    ensures d.benefits == ValidBenefits(bs)
    ensures d.discount == Some(f.discount.GetOr(0))
    ensures d.price == f.price && d.stock == f.stock
    ensures d.title == Some(f.title) && d.sku == Some(f.sku)
  {
    ProductDraft(Some(f.title), f.price, Some(f.category), Some(f.subCategory), Some(f.discount.GetOr(0)),
                 Some(f.imageUrl), ValidBenefits(bs), f.stock, Some(f.brand), Some(f.sku),
                 Some(f.etiquette), Some(f.description), Some(f.usage))
  }

  /** A form whose sku is left blank still submits `sku: ""`, which the server stores as the sku
      "": the sparse index indexes it, so a second such product is refused by the index. */
  lemma BlankSkuIsIndexed(f: FormData, g: FormData, bs: seq<Benefit>, cs: seq<Benefit>, id1: string, id2: string, now: Instant)
    requires f.sku == "" && g.sku == ""
    requires Create(Payload(f, bs), id1, now).Some? && Create(Payload(g, cs), id2, now).Some?
    ensures Create(Payload(f, bs), id1, now).value.sku == Some("")
    ensures !SkusUnique([Create(Payload(f, bs), id1, now).value, Create(Payload(g, cs), id2, now).value])
  {
    assert Trim("") == "";
    var ps := [Create(Payload(f, bs), id1, now).value, Create(Payload(g, cs), id2, now).value];
    assert ps[0].sku == Some("") && ps[1].sku == Some("");
  }

  /** The form's state. */
  class ProductForm {
    var benefits: seq<Benefit>
    var category: string
    var selectedSubcategory: Option<seq<Subcategory>>

    constructor()
      ensures benefits == [] && category == "" && selectedSubcategory == None
    {
      benefits := [];
      category := "";
      selectedSubcategory := None;
    }

    /** Lines 60-66: append a blank benefit; `id` is `Date.now().toString()`. */
    method AddBenefit(id: string)
      modifies this
      ensures benefits == old(benefits) + [Benefit(id, "")]
      ensures category == old(category) && selectedSubcategory == old(selectedSubcategory)
    {
      benefits := benefits + [Benefit(id, "")];
    }

    /** Lines 82-84. */
    method RemoveBenefit(id: string)
      modifies this
      ensures benefits == WithoutId(old(benefits), id)
      ensures forall b :: b in benefits <==> b in old(benefits) && b.id != id
      ensures category == old(category) && selectedSubcategory == old(selectedSubcategory)
    {
      RemoveSpec(benefits, id);
      benefits := WithoutId(benefits, id);
    }

    /** Lines 86-92. */
    method UpdateBenefit(id: string, value: string)
      modifies this
      ensures benefits == SetValue(old(benefits), id, value)
      ensures category == old(category) && selectedSubcategory == old(selectedSubcategory)
    {
      benefits := SetValue(benefits, id, value);
    }

    /** Lines 68-80: choosing a category offers its subcategories, or none; clearing the
        category leaves the offer as it was. */
    method OnCategoryChanged(slug: string)
      modifies this
      ensures category == slug && benefits == old(benefits)
      ensures slug == "" ==> selectedSubcategory == old(selectedSubcategory)
      ensures slug != "" ==> selectedSubcategory == SubcategoriesOf(slug)
    {
      category := slug;
      if slug != "" {
        selectedSubcategory := SubcategoriesOf(slug);
      }
    }
  }
}
