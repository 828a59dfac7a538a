/** The decisions of the attribute post-processor that concern one
    attribute or one attribute entry: whether an attribute is shown on the
    page at hand, and which options an entry keeps. */
module AttributeRules {
  import opened Types
  import opened ResolveInfoFields
  import opened ProductData

  /** A string PHP reads as false. */
  predicate Falsy(s: string)
  {
    s == "" || s == "0"
  }

  /** `array_filter` of a list of strings: the truthy ones, in order. */
  function NonFalsy(xs: seq<string>): (r: seq<string>)
    ensures forall x :: x in r <==> x in xs && !Falsy(x)
    ensures |r| <= |xs|
  {
    if xs == [] then []
    else
      var rest := NonFalsy(xs[..|xs| - 1]);
      var x := xs[|xs| - 1];
      assert xs == xs[..|xs| - 1] + [x];
      if Falsy(x) then rest else rest + [x]
  }

  // ---------------------------------------------------------------------------
  // isAttributeSkipped
  // ---------------------------------------------------------------------------

  /** The configurable attribute ids of the processor and the page flags of
      the request. */
  datatype SkipRule = SkipRule(
    configurableAttributeIds: seq<int>,
    isSingleProduct: bool,
    isCompare: bool,
    isCartProduct: bool)

  /** Whether the attribute is left out of the response. */
  predicate IsAttributeSkipped(a: Attribute, rule: SkipRule)
  {
    if a.id in rule.configurableAttributeIds then
      !a.usedInProductListing && !rule.isSingleProduct && !rule.isCartProduct
    else if rule.isSingleProduct then
      !a.isVisibleOnFront || Falsy(a.storeLabel)
    else if rule.isCompare then
      !a.isComparable || !a.isVisible
    else
      !a.usedInProductListing
  }

  /** An attribute used in product listing is never skipped on a listing,
      and an attribute of the configurable pool never on a product page or
      in the cart. */
  lemma KeptAttributes(a: Attribute, rule: SkipRule)
    ensures a.usedInProductListing && !rule.isSingleProduct && !rule.isCompare ==> !IsAttributeSkipped(a, rule)
    ensures a.id in rule.configurableAttributeIds && (rule.isSingleProduct || rule.isCartProduct) ==>
      !IsAttributeSkipped(a, rule)
  {
  }

  /** For an attribute of the configurable pool only its listing flag and
      the page matter; outside the pool the cart flag plays no part. */
  lemma SkipFlags(a: Attribute, rule: SkipRule, b: Attribute)
    ensures (a.id in rule.configurableAttributeIds && b.id in rule.configurableAttributeIds
             && a.usedInProductListing == b.usedInProductListing) ==>
      (IsAttributeSkipped(a, rule) <==> IsAttributeSkipped(b, rule))
    ensures a.id !in rule.configurableAttributeIds ==>
      (IsAttributeSkipped(a, rule) <==> IsAttributeSkipped(a, rule.(isCartProduct := !rule.isCartProduct)))
  {
  }

  // ---------------------------------------------------------------------------
  // The option filter of appendWithOptions
  // ---------------------------------------------------------------------------

  /** The values an entry selects: the truthy pieces of its comma-separated
      value and the truthy variant values. */
  function SelectedValues(value: Option<string>, variants: seq<string>): set<string>
  {
    Elems(NonFalsy(Explode(if value.Some? then value.value else "", ','))) + Elems(NonFalsy(variants))
  }

  /** The options whose value is selected, in option order. */
  function KeptOptions(options: seq<AttributeOption>, values: set<string>): (r: seq<AttributeOption>)
    ensures forall o :: o in r <==> o in options && o.value in values
    ensures |r| <= |options|
  {
    if options == [] then []
    else
      var rest := KeptOptions(options[..|options| - 1], values);
      var o := options[|options| - 1];
      assert options == options[..|options| - 1] + [o];
      if o.value in values then rest + [o] else rest
  }

  /** One entry after the option step: `None` when it is removed. */
  function OptionEntry(e: AttributeEntry, options: seq<AttributeOption>, variants: seq<string>): Option<AttributeEntry>
  {
    if e.value.None? && |NonFalsy(variants)| == 0 then None
    else Some(e.(options := Some(KeptOptions(options, SelectedValues(e.value, variants)))))
  }

  /** An entry without a value and without a truthy variant value is
      removed; any other keeps its description and value and gets exactly
      the options whose value is truthy and is one of its comma-separated
      values or one of the variant values. */
  lemma {:induction false} OptionRule(e: AttributeEntry, options: seq<AttributeOption>, variants: seq<string>)
    ensures OptionEntry(e, options, variants).None? <==>
      e.value.None? && forall v :: v in variants ==> Falsy(v)
    ensures OptionEntry(e, options, variants).Some? ==>
      var r := OptionEntry(e, options, variants).value;
      && r.info == e.info && r.value == e.value && r.options.Some?
      && forall o :: o in r.options.value <==>
           o in options && !Falsy(o.value)
           && ((e.value.Some? && o.value in Explode(e.value.value, ',')) || o.value in variants)
  {
    var nonFalsy := NonFalsy(variants);
    if |nonFalsy| > 0 {
      assert nonFalsy[0] in nonFalsy;
    }
    if OptionEntry(e, options, variants).Some? {
      var values := SelectedValues(e.value, variants);
      var pieces := Explode(if e.value.Some? then e.value.value else "", ',');
      forall v: string
        ensures v in values <==>
          !Falsy(v) && ((e.value.Some? && v in Explode(e.value.value, ',')) || v in variants)
      {
        if e.value.None? {
          assert pieces == [""];
        }
      }
    }
  }
}
