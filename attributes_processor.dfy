/** The attribute post-processor: for the products of a listing it decides
    which attributes each product shows, with their group, value and, when
    requested, the options its value selects, and returns a callback that
    writes them under `s_attributes`. */
module AttributesProcessor {
  import opened Types
  import opened ResolveInfoFields
  import opened ProductData
  import opened AttributeRules

  const ATTRIBUTE_OPTIONS: string := "attribute_options"

  /** What the processor reads from the catalog. */
  datatype Catalog = Catalog(
    /** `SELECT DISTINCT attribute_id FROM catalog_product_super_attribute` */
    superAttributeIds: seq<int>,
    /** `eav_attribute_group` */
    groups: seq<Group>,
    /** the non-null attribute values of every catalog product */
    values: map<ProductId, map<string, string>>)

  /** The request options the processor reads. */
  datatype ProcessorOptions = ProcessorOptions(
    isSingleProduct: Option<bool>,
    isCompare: Option<bool>,
    isCartProduct: Option<bool>)

  /** `isset($options[$key]) ? $options[$key] : false` */
  function Flag(o: Option<bool>): bool
  {
    if o.Some? then o.value else false
  }

  /** The attribute map of every product id. */
  type ProductAttributes = map<ProductId, map<string, AttributeEntry>>

  // ---------------------------------------------------------------------------
  // Attribute sets and the attributes they show
  // ---------------------------------------------------------------------------

  /** An attribute set and the attributes of its first product. */
  datatype AttributeSet = AttributeSet(id: int, attributes: seq<Attribute>)

  function SetIds(sets: seq<AttributeSet>): set<int>
  {
    set s | s in sets :: s.id
  }

  /** `$attributesBySetId`: one entry per attribute set, in order of first
      appearance, holding the attributes of the set's first product. */
  function AttributesBySet(products: seq<Product>): (r: seq<AttributeSet>)
    ensures SetIds(r) == set p | p in products :: p.attributeSetId
    ensures forall i, j :: 0 <= i < j < |r| ==> r[i].id != r[j].id
  {
    if products == [] then []
    else
      var init := products[..|products| - 1];
      var acc := AttributesBySet(init);
      var p := products[|products| - 1];
      assert products == init + [p];
      assert (set q | q in products :: q.attributeSetId) == (set q | q in init :: q.attributeSetId) + {p.attributeSetId};
      if p.attributeSetId in SetIds(acc) then acc
      else
        var r := acc + [AttributeSet(p.attributeSetId, p.attributes)];
        assert SetIds(r) == SetIds(acc) + {p.attributeSetId};
        r
  }

  /** An attribute of a set, as the nested loop over the sets visits it. */
  datatype Candidate = Candidate(setId: int, attribute: Attribute)

  function SetCandidates(s: AttributeSet): seq<Candidate>
  {
    seq(|s.attributes|, k requires 0 <= k < |s.attributes| => Candidate(s.id, s.attributes[k]))
  }

  function Candidates(sets: seq<AttributeSet>): seq<Candidate>
  {
    if sets == [] then [] else Candidates(sets[..|sets| - 1]) + SetCandidates(sets[|sets| - 1])
  }

  /** The set and code of every attribute that is not skipped. */
  function ShownKeys(cs: seq<Candidate>, rule: SkipRule): set<(int, string)>
  {
    set c | c in cs && !IsAttributeSkipped(c.attribute, rule) :: (c.setId, c.attribute.code)
  }

  /** The code of every attribute that is not skipped. */
  function ShownCodes(cs: seq<Candidate>, rule: SkipRule): set<string>
  {
    set c | c in cs && !IsAttributeSkipped(c.attribute, rule) :: c.attribute.code
  }

  /** The description of a shown attribute before its group is known. */
  function BaseInfo(a: Attribute): AttributeInfo
  {
    AttributeInfo(a.code, a.frontendInput, a.storeLabel, a.id, a.usedInProductListing, None)
  }

  /** `$attributeDataBySetId` before the groups: for every set, the
      description of each attribute it shows; a later attribute with the
      same code overwrites an earlier one. */
  function DataBySet(cs: seq<Candidate>, rule: SkipRule): (r: map<int, map<string, AttributeInfo>>)
    ensures forall s :: s in r ==> |r[s]| > 0
  {
    if cs == [] then map[]
    else
      var init := cs[..|cs| - 1];
      var acc := DataBySet(init, rule);
      var c := cs[|cs| - 1];
      if IsAttributeSkipped(c.attribute, rule) then acc
      else
        var infos := if c.setId in acc then acc[c.setId] else map[];
        var updated := infos[c.attribute.code := BaseInfo(c.attribute)];
        assert c.attribute.code in updated;
        acc[c.setId := updated]
  }

  function Codes(attributes: seq<Attribute>): set<string>
  {
    set a | a in attributes :: a.code
  }

  /** `$attributes`: every shown attribute code once, with the attribute
      first seen under it. */
  function Collected(cs: seq<Candidate>, rule: SkipRule): (r: seq<Attribute>)
    ensures forall i, j :: 0 <= i < j < |r| ==> r[i].code != r[j].code
  {
    if cs == [] then []
    else
      var init := cs[..|cs| - 1];
      var acc := Collected(init, rule);
      var c := cs[|cs| - 1];
      if IsAttributeSkipped(c.attribute, rule) || c.attribute.code in Codes(acc) then acc
      else
        var r := acc + [c.attribute];
        assert forall k :: 0 <= k < |acc| ==> acc[k] in acc;
        r
  }

  /** A set has an entry exactly when one of its attributes is shown, and
      holds exactly the codes of its shown attributes. */
  lemma {:induction false} DataBySetKeys(cs: seq<Candidate>, rule: SkipRule)
    ensures forall s, code :: s in DataBySet(cs, rule) && code in DataBySet(cs, rule)[s] <==> (s, code) in ShownKeys(cs, rule)
  {
    if cs != [] {
      var init := cs[..|cs| - 1];
      var c := cs[|cs| - 1];
      DataBySetKeys(init, rule);
      assert cs == init + [c];
      if IsAttributeSkipped(c.attribute, rule) {
        assert ShownKeys(cs, rule) == ShownKeys(init, rule);
      } else {
        assert ShownKeys(cs, rule) == ShownKeys(init, rule) + {(c.setId, c.attribute.code)};
      }
    }
  }

  /** The collected codes are exactly the shown codes. */
  lemma {:induction false} CollectedCodes(cs: seq<Candidate>, rule: SkipRule)
    ensures Codes(Collected(cs, rule)) == ShownCodes(cs, rule)
  {
    if cs != [] {
      var init := cs[..|cs| - 1];
      var c := cs[|cs| - 1];
      CollectedCodes(init, rule);
      assert cs == init + [c];
      var acc := Collected(init, rule);
      if IsAttributeSkipped(c.attribute, rule) {
        assert ShownCodes(cs, rule) == ShownCodes(init, rule);
      } else {
        assert ShownCodes(cs, rule) == ShownCodes(init, rule) + {c.attribute.code};
        if c.attribute.code !in Codes(acc) {
          assert Codes(acc + [c.attribute]) == Codes(acc) + {c.attribute.code};
        }
      }
    }
  }

  // ---------------------------------------------------------------------------
  // appendWithGroup
  // ---------------------------------------------------------------------------

  /** The first attribute collected under `code`. */
  function FindAttribute(collected: seq<Attribute>, code: string): (r: Option<Attribute>)
    ensures r.Some? <==> code in Codes(collected)
    ensures r.Some? ==> r.value in collected && r.value.code == code
  {
    if collected == [] then None
    else if collected[0].code == code then Some(collected[0])
    else
      var r := FindAttribute(collected[1..], code);
      assert collected == [collected[0]] + collected[1..];
      r
  }

  /** `attribute_set_info/<set>/group_id` of an attribute. */
  function GroupIdIn(a: Attribute, setId: int): Option<int>
  {
    if setId in a.groupIdBySet then Some(a.groupIdBySet[setId]) else None
  }

  /** A group of the loaded collection with the given id. */
  predicate GroupMatches(g: Group, setIds: set<int>, groupId: Option<int>)
  {
    g.setId in setIds && groupId == Some(g.id)
  }

  /** The position of the first group of the sets `setIds` with that id. */
  function GroupIndex(groups: seq<Group>, setIds: set<int>, groupId: Option<int>): (r: Option<nat>)
    ensures r.Some? ==> r.value < |groups| && GroupMatches(groups[r.value], setIds, groupId)
    ensures r.Some? ==> forall j :: 0 <= j < r.value ==> !GroupMatches(groups[j], setIds, groupId)
    ensures r.None? ==> forall j :: 0 <= j < |groups| ==> !GroupMatches(groups[j], setIds, groupId)
  {
    if groups == [] then None
    else if GroupMatches(groups[0], setIds, groupId) then Some(0)
    else
      var r := GroupIndex(groups[1..], setIds, groupId);
      if r.None? then None else Some(r.value + 1)
  }

  /** The description of `code` in set `setId` once its group is found; it
      keeps no group when none matches. */
  function GroupedInfo(info: AttributeInfo, collected: seq<Attribute>, groups: seq<Group>, setIds: set<int>,
                       setId: int, code: string): AttributeInfo
  {
    match FindAttribute(collected, code)
    case None => info
    case Some(a) =>
      match GroupIndex(groups, setIds, GroupIdIn(a, setId))
      case None => info
      case Some(k) => info.(group := Some(groups[k]))
  }

  /** `$attributeDataBySetId` after `appendWithGroup`. */
  function WithGroups(data: map<int, map<string, AttributeInfo>>, collected: seq<Attribute>, groups: seq<Group>,
                      setIds: set<int>): map<int, map<string, AttributeInfo>>
  {
    map s | s in data :: map code | code in data[s] :: GroupedInfo(data[s][code], collected, groups, setIds, s, code)
  }

  /** Before `appendWithGroup` no description has a group. */
  lemma {:induction false} BaseInfoHasNoGroup(cs: seq<Candidate>, rule: SkipRule, s: int, code: string)
    requires s in DataBySet(cs, rule) && code in DataBySet(cs, rule)[s]
    ensures DataBySet(cs, rule)[s][code].group == None
  {
    var init := cs[..|cs| - 1];
    var c := cs[|cs| - 1];
    if IsAttributeSkipped(c.attribute, rule) || c.setId != s || c.attribute.code != code {
      BaseInfoHasNoGroup(init, rule, s, code);
    }
  }

  /** A code shown in a set is a collected code. */
  lemma DataCodesCollected(cs: seq<Candidate>, rule: SkipRule, s: int, code: string)
    requires s in DataBySet(cs, rule) && code in DataBySet(cs, rule)[s]
    ensures code in Codes(Collected(cs, rule))
  {
    DataBySetKeys(cs, rule);
    CollectedCodes(cs, rule);
    assert (s, code) in ShownKeys(cs, rule);
  }

  /** Every shown attribute of a set has a collected attribute under its
      code, and gets the first group of the loaded sets whose id is that
      attribute's group id in the set; nothing else of it changes. */
  lemma GroupRule(cs: seq<Candidate>, rule: SkipRule, groups: seq<Group>, setIds: set<int>, s: int, code: string)
    requires s in DataBySet(cs, rule) && code in DataBySet(cs, rule)[s]
    ensures FindAttribute(Collected(cs, rule), code).Some?
    ensures var data := DataBySet(cs, rule);
      var grouped := WithGroups(data, Collected(cs, rule), groups, setIds);
      var groupId := GroupIdIn(FindAttribute(Collected(cs, rule), code).value, s);
      var k := GroupIndex(groups, setIds, groupId);
      && grouped.Keys == data.Keys && grouped[s].Keys == data[s].Keys
      && data[s][code].group.None?
      && grouped[s][code] == data[s][code].(group := if k.Some? then Some(groups[k.value]) else None)
  {
    DataCodesCollected(cs, rule, s, code);
    BaseInfoHasNoGroup(cs, rule, s, code);
  }

  // ---------------------------------------------------------------------------
  // The base attribute map of every product
  // ---------------------------------------------------------------------------

  /** The entries of a set's shown attributes: a description, no value and
      no option yet. */
  function BaseEntries(infos: map<string, AttributeInfo>): map<string, AttributeEntry>
  {
    map code | code in infos :: AttributeEntry(Some(infos[code]), None, Some([]))
  }

  /** The base attribute map of a product; empty when no attribute of its
      set is shown. */
  function ProductBase(data: map<int, map<string, AttributeInfo>>, p: Product): map<string, AttributeEntry>
  {
    if p.attributeSetId in data then BaseEntries(data[p.attributeSetId]) else map[]
  }

  function ProductIds(products: seq<Product>): set<ProductId>
  {
    set p | p in products :: p.id
  }

  /** `$productAttributes` before the values: the last product with an id
      decides its map. */
  function BaseAttributes(products: seq<Product>, data: map<int, map<string, AttributeInfo>>): ProductAttributes
  {
    if products == [] then map[]
    else
      var p := products[|products| - 1];
      BaseAttributes(products[..|products| - 1], data)[p.id := ProductBase(data, p)]
  }

  /** Every product id has a base map, that of the last product with the
      id; a product of a set without shown attributes gets an empty map. */
  lemma {:induction false} BaseAttributesOf(products: seq<Product>, data: map<int, map<string, AttributeInfo>>)
    ensures BaseAttributes(products, data).Keys == ProductIds(products)
    ensures forall id :: id in ProductIds(products) ==>
      BaseAttributes(products, data)[id] == ProductBase(data, LastProduct(products, id).value)
    ensures forall id :: id in ProductIds(products) && LastProduct(products, id).value.attributeSetId !in data ==>
      BaseAttributes(products, data)[id] == map[]
  {
    if products != [] {
      var init := products[..|products| - 1];
      var p := products[|products| - 1];
      BaseAttributesOf(init, data);
      assert products == init + [p];
      assert ProductIds(products) == ProductIds(init) + {p.id};
    }
  }

  // ---------------------------------------------------------------------------
  // appendWithValue
  // ---------------------------------------------------------------------------

  /** The entry of `code` with its value set; a code the product has no
      entry for gets an entry holding only the value. */
  function WithValue(entries: map<string, AttributeEntry>, code: string, v: string): AttributeEntry
  {
    if code in entries then entries[code].(value := Some(v)) else AttributeEntry(None, Some(v), None)
  }

  /** The inner loop of `appendWithValue` for one loaded product: every
      collected code with a non-null value gets it. */
  function ProductValues(entries: map<string, AttributeEntry>, collected: seq<Attribute>, values: map<string, string>)
    : (r: map<string, AttributeEntry>)
    ensures forall code :: code in r <==> code in entries || (code in Codes(collected) && code in values)
    ensures forall code :: code in r ==>
      r[code].value == if code in Codes(collected) && code in values then Some(values[code]) else entries[code].value
    ensures forall code :: code in r ==>
      r[code].info == (if code in entries then entries[code].info else None)
      && r[code].options == (if code in entries then entries[code].options else None)
  {
    if collected == [] then entries
    else
      var init := collected[..|collected| - 1];
      var code := collected[|collected| - 1].code;
      var acc := ProductValues(entries, init, values);
      assert collected == init + [collected[|collected| - 1]];
      assert Codes(collected) == Codes(init) + {code};
      if code in values then acc[code := WithValue(acc, code, values[code])] else acc
  }

  /** `$productAttributes` after `appendWithValue`: the products the catalog
      has get their values. */
  function WithValues(attributes: ProductAttributes, collected: seq<Attribute>, values: map<ProductId, map<string, string>>)
    : ProductAttributes
  {
    map id | id in attributes :: if id in values then ProductValues(attributes[id], collected, values[id]) else attributes[id]
  }

  // ---------------------------------------------------------------------------
  // appendWithOptions
  // ---------------------------------------------------------------------------

  /** `$formattedAttributes`: an attribute with options, without its first
      option. */
  datatype FormattedAttribute = FormattedAttribute(code: string, id: int, options: seq<AttributeOption>)

  function FormattedAttributes(collected: seq<Attribute>): (r: seq<FormattedAttribute>)
    ensures forall a :: a in collected && a.options != [] ==> FormattedAttribute(a.code, a.id, a.options[1..]) in r
    ensures forall f :: f in r ==> f.code in Codes(collected)
    ensures |r| <= |collected|
  {
    if collected == [] then []
    else
      var init := collected[..|collected| - 1];
      var a := collected[|collected| - 1];
      var acc := FormattedAttributes(init);
      assert collected == init + [a];
      if a.options == [] then acc else acc + [FormattedAttribute(a.code, a.id, a.options[1..])]
  }

  /** The variant values of a product for an attribute: only a configurable
      product has any. */
  function Variants(p: Product, attributeId: int): seq<string>
  {
    if p.typeId == CONFIGURABLE_TYPE && attributeId in p.configurableOptions then p.configurableOptions[attributeId] else []
  }

  /** One pass of the inner loop of `appendWithOptions`. */
  function OptionStep(attributes: ProductAttributes, f: FormattedAttribute, p: Product): ProductAttributes
  {
    if p.id !in attributes || f.code !in attributes[p.id] then attributes
    else
      match OptionEntry(attributes[p.id][f.code], f.options, Variants(p, f.id))
      case None => attributes[p.id := attributes[p.id] - {f.code}]
      case Some(e) => attributes[p.id := attributes[p.id][f.code := e]]
  }

  function OptionsForProducts(attributes: ProductAttributes, f: FormattedAttribute, products: seq<Product>): ProductAttributes
  {
    if products == [] then attributes
    else OptionStep(OptionsForProducts(attributes, f, products[..|products| - 1]), f, products[|products| - 1])
  }

  /** `$productAttributes` after `appendWithOptions`. */
  function WithOptions(attributes: ProductAttributes, formatted: seq<FormattedAttribute>, products: seq<Product>): ProductAttributes
  {
    if formatted == [] then attributes
    else OptionsForProducts(WithOptions(attributes, formatted[..|formatted| - 1], products), formatted[|formatted| - 1], products)
  }

  /** `after` has the product ids of `before`, and every entry it keeps
      comes from `before` with the same description and value. */
  ghost predicate Narrows(after: ProductAttributes, before: ProductAttributes)
  {
    && after.Keys == before.Keys
    && forall id :: id in after ==> forall code :: code in after[id] ==>
         code in before[id] && after[id][code].info == before[id][code].info && after[id][code].value == before[id][code].value
  }

  /** One product and one attribute: an entry without a value and without
      a truthy variant value is removed, any other gets the options its
      values select; other products and codes are untouched. */
  lemma OptionStepRule(attributes: ProductAttributes, f: FormattedAttribute, p: Product)
    requires p.id in attributes && f.code in attributes[p.id]
    ensures var r := OptionStep(attributes, f, p);
      var e := attributes[p.id][f.code];
      && r.Keys == attributes.Keys
      && (forall id :: id in r && id != p.id ==> r[id] == attributes[id])
      && (forall code :: code in r[p.id] && code != f.code ==> r[p.id][code] == attributes[p.id][code])
      && (f.code !in r[p.id] <==> e.value.None? && forall v :: v in Variants(p, f.id) ==> Falsy(v))
      && (f.code in r[p.id] ==> r[p.id][f.code] == OptionEntry(e, f.options, Variants(p, f.id)).value)
  {
    OptionRule(attributes[p.id][f.code], f.options, Variants(p, f.id));
  }

  /** The option step for all products only removes entries and sets their
      options. */
  lemma {:induction false} ProductsNarrow(attributes: ProductAttributes, f: FormattedAttribute, products: seq<Product>)
    ensures Narrows(OptionsForProducts(attributes, f, products), attributes)
  {
    if products != [] {
      var p := products[|products| - 1];
      ProductsNarrow(attributes, f, products[..|products| - 1]);
      var mid := OptionsForProducts(attributes, f, products[..|products| - 1]);
      if p.id in mid && f.code in mid[p.id] {
        OptionRule(mid[p.id][f.code], f.options, Variants(p, f.id));
      }
    }
  }

  /** The whole option step only removes entries and sets their options. */
  lemma {:induction false} OptionsNarrow(attributes: ProductAttributes, formatted: seq<FormattedAttribute>, products: seq<Product>)
    ensures Narrows(WithOptions(attributes, formatted, products), attributes)
  {
    if formatted != [] {
      var init := formatted[..|formatted| - 1];
      OptionsNarrow(attributes, init, products);
      ProductsNarrow(WithOptions(attributes, init, products), formatted[|formatted| - 1], products);
    }
  }

  // ---------------------------------------------------------------------------
  // process
  // ---------------------------------------------------------------------------

  /** The attribute map of every product id, as `process` computes it for
      the requested fields. */
  function ProductAttributesFor(catalog: Catalog, products: seq<Product>, fields: seq<Option<string>>,
                                rule: SkipRule): ProductAttributes
  {
    var sets := AttributesBySet(products);
    var cs := Candidates(sets);
    var collected := Collected(cs, rule);
    var data := WithGroups(DataBySet(cs, rule), collected, catalog.groups, SetIds(sets));
    var withValues := WithValues(BaseAttributes(products, data), collected, catalog.values);
    if Some(ATTRIBUTE_OPTIONS) in fields then WithOptions(withValues, FormattedAttributes(collected), products)
    else withValues
  }

  /** The skip rule of a request, with the configurable attribute ids the
      catalog has. */
  function RuleFor(catalog: Catalog, options: ProcessorOptions): SkipRule
  {
    SkipRule(catalog.superAttributeIds, Flag(options.isSingleProduct), Flag(options.isCompare), Flag(options.isCartProduct))
  }

  /** What `process` returns. */
  function AttributesCallback(catalog: Catalog, products: seq<Product>, path: string, source: ResolveSource,
                              options: ProcessorOptions): (r: Callback)
    ensures FieldsFromProductInfo(AttributeFields, source, path) == [] <==> r == Unchanged
    ensures r.Unchanged? || r.WriteAttributes?
  {
    var fields := FieldsFromProductInfo(AttributeFields, source, path);
    if |fields| == 0 then Unchanged
    else WriteAttributes(ProductAttributesFor(catalog, products, fields, RuleFor(catalog, options)))
  }

  /** The callback has an attribute map for every product id and no other;
      every entry it writes describes a shown attribute or carries a value
      of the product. */
  lemma CallbackCoversProducts(catalog: Catalog, products: seq<Product>, path: string, source: ResolveSource,
                               options: ProcessorOptions)
    requires AttributesCallback(catalog, products, path, source, options).WriteAttributes?
    ensures var attributes := AttributesCallback(catalog, products, path, source, options).productAttributes;
      && attributes.Keys == ProductIds(products)
      && forall id: ProductId, code: string :: id in attributes && code in attributes[id] ==>
           attributes[id][code].info.Some? || attributes[id][code].value.Some?
  {
    var fields := FieldsFromProductInfo(AttributeFields, source, path);
    var rule := RuleFor(catalog, options);
    var sets := AttributesBySet(products);
    var cs := Candidates(sets);
    var collected := Collected(cs, rule);
    var data := WithGroups(DataBySet(cs, rule), collected, catalog.groups, SetIds(sets));
    var base := BaseAttributes(products, data);
    BaseAttributesOf(products, data);
    var withValues: ProductAttributes := WithValues(base, collected, catalog.values);
    assert forall id: ProductId, code: string :: id in withValues && code in withValues[id] ==>
      withValues[id][code].info.Some? || withValues[id][code].value.Some?;
    if Some(ATTRIBUTE_OPTIONS) in fields {
      OptionsNarrow(withValues, FormattedAttributes(collected), products);
    }
  }

  // ---------------------------------------------------------------------------
  // The loops of `process` and its helpers
  // ---------------------------------------------------------------------------

  /** The `$attributesBySetId` loop. */
  method CollectSets(products: seq<Product>) returns (sets: seq<AttributeSet>)
    ensures sets == AttributesBySet(products)
  {
    sets := [];
    var i := 0;
    while i < |products|
      invariant 0 <= i <= |products|
      invariant sets == AttributesBySet(products[..i])
    {
      var product := products[i];
      assert products[..i + 1][..i] == products[..i];
      if product.attributeSetId !in SetIds(sets) {
        sets := sets + [AttributeSet(product.attributeSetId, product.attributes)];
      }
      i := i + 1;
    }
    assert products[..i] == products;
  }

  /** One pass of the inner loop: a shown attribute is described in its
      set and collected unless its code already is. */
  method VisitAttribute(c: Candidate, rule: SkipRule, ghost prefix: seq<Candidate>,
                        data0: map<int, map<string, AttributeInfo>>, collected0: seq<Attribute>)
    returns (data: map<int, map<string, AttributeInfo>>, collected: seq<Attribute>)
    requires data0 == DataBySet(prefix, rule) && collected0 == Collected(prefix, rule)
    ensures data == DataBySet(prefix + [c], rule)
    ensures collected == Collected(prefix + [c], rule)
  {
    assert (prefix + [c])[..|prefix|] == prefix;
    data, collected := data0, collected0;
    if !IsAttributeSkipped(c.attribute, rule) {
      var infos := if c.setId in data then data[c.setId] else map[];
      data := data[c.setId := infos[c.attribute.code := BaseInfo(c.attribute)]];
      if c.attribute.code !in Codes(collected) {
        collected := collected + [c.attribute];
      }
    }
  }

  /** The inner loop over the attributes of one set. */
  method CollectSetAttributes(attributeSet: AttributeSet, rule: SkipRule, ghost before: seq<Candidate>,
                              data0: map<int, map<string, AttributeInfo>>, collected0: seq<Attribute>)
    returns (data: map<int, map<string, AttributeInfo>>, collected: seq<Attribute>)
    requires data0 == DataBySet(before, rule) && collected0 == Collected(before, rule)
    ensures data == DataBySet(before + SetCandidates(attributeSet), rule)
    ensures collected == Collected(before + SetCandidates(attributeSet), rule)
  {
    data, collected := data0, collected0;
    var candidates := SetCandidates(attributeSet);
    ghost var prefix := before;
    var j := 0;
    while j < |candidates|
      invariant 0 <= j <= |candidates|
      invariant prefix == before + candidates[..j]
      invariant data == DataBySet(prefix, rule) && collected == Collected(prefix, rule)
    {
      data, collected := VisitAttribute(candidates[j], rule, prefix, data, collected);
      prefix := prefix + [candidates[j]];
      assert candidates[..j + 1] == candidates[..j] + [candidates[j]];
      j := j + 1;
    }
    assert candidates[..j] == candidates;
  }

  /** The loop over the attributes of every set: the descriptions of the
      shown attributes by set, and each shown code's first attribute. */
  method CollectAttributes(sets: seq<AttributeSet>, rule: SkipRule)
    returns (data: map<int, map<string, AttributeInfo>>, collected: seq<Attribute>)
    ensures data == DataBySet(Candidates(sets), rule)
    ensures collected == Collected(Candidates(sets), rule)
  {
    data := map[];
    collected := [];
    var i := 0;
    while i < |sets|
      invariant 0 <= i <= |sets|
      invariant data == DataBySet(Candidates(sets[..i]), rule)
      invariant collected == Collected(Candidates(sets[..i]), rule)
    {
      data, collected := CollectSetAttributes(sets[i], rule, Candidates(sets[..i]), data, collected);
      assert sets[..i + 1][..i] == sets[..i];
      i := i + 1;
    }
    assert sets[..i] == sets;
  }

  /** The group loop with its `break`. */
  method FindGroup(groups: seq<Group>, setIds: set<int>, groupId: Option<int>) returns (found: Option<nat>)
    ensures found == GroupIndex(groups, setIds, groupId)
  {
    var i := 0;
    while i < |groups|
      invariant 0 <= i <= |groups|
      invariant forall j :: 0 <= j < i ==> !GroupMatches(groups[j], setIds, groupId)
    {
      if groups[i].setId in setIds && groupId == Some(groups[i].id) {
        var expected := GroupIndex(groups, setIds, groupId);
        assert expected.Some? && expected.value == i by {
          assert GroupMatches(groups[i], setIds, groupId);
        }
        return Some(i);
      }
      i := i + 1;
    }
    return None;
  }

  /** `appendWithGroup` for the attributes of one set. */
  method GroupSet(infos: map<string, AttributeInfo>, collected: seq<Attribute>, groups: seq<Group>, setIds: set<int>,
                  setId: int) returns (grouped: map<string, AttributeInfo>)
    ensures grouped == map code | code in infos :: GroupedInfo(infos[code], collected, groups, setIds, setId, code)
  {
    grouped := infos;
    var todo := infos.Keys;
    while todo != {}
      invariant todo <= infos.Keys
      invariant grouped.Keys == infos.Keys
      invariant forall code :: code in grouped ==>
        grouped[code] == if code in todo then infos[code] else GroupedInfo(infos[code], collected, groups, setIds, setId, code)
      decreases todo
    {
      var code :| code in todo;
      var attribute := FindAttribute(collected, code);
      if attribute.Some? {
        var k := FindGroup(groups, setIds, GroupIdIn(attribute.value, setId));
        if k.Some? {
          grouped := grouped[code := grouped[code].(group := Some(groups[k.value]))];
        }
      }
      todo := todo - {code};
    }
  }

  /** `appendWithGroup` */
  method AppendWithGroup(collected: seq<Attribute>, setIds: set<int>, groups: seq<Group>,
                         data: map<int, map<string, AttributeInfo>>) returns (grouped: map<int, map<string, AttributeInfo>>)
    ensures grouped == WithGroups(data, collected, groups, setIds)
  {
    ghost var target := WithGroups(data, collected, groups, setIds);
    grouped := data;
    var todo := data.Keys;
    while todo != {}
      invariant todo <= data.Keys
      invariant grouped.Keys == data.Keys
      invariant forall s :: s in grouped ==> grouped[s] == if s in todo then data[s] else target[s]
      decreases todo
    {
      ghost var picked := Element(todo);
      var s :| s in todo;
      var infos := GroupSet(data[s], collected, groups, setIds, s);
      grouped := grouped[s := infos];
      todo := todo - {s};
    }
  }

  /** The loop creating every product's base attribute map. */
  method BuildProductAttributes(products: seq<Product>, data: map<int, map<string, AttributeInfo>>)
    returns (attributes: ProductAttributes, productIds: seq<ProductId>)
    ensures attributes == BaseAttributes(products, data)
    ensures productIds == seq(|products|, k requires 0 <= k < |products| => products[k].id)
    ensures forall id :: id in productIds <==> id in ProductIds(products)
  {
    attributes := map[];
    productIds := [];
    var i := 0;
    while i < |products|
      invariant 0 <= i <= |products|
      invariant attributes == BaseAttributes(products[..i], data)
      invariant productIds == seq(i, k requires 0 <= k < i => products[k].id)
    {
      var product := products[i];
      assert products[..i + 1][..i] == products[..i];
      productIds := productIds + [product.id];
      attributes := attributes[product.id := map[]];
      if product.attributeSetId in data {
        attributes := attributes[product.id := BaseEntries(data[product.attributeSetId])];
      }
      i := i + 1;
    }
    assert products[..i] == products;
    forall id | id in productIds
      ensures id in ProductIds(products)
    {
      var k :| 0 <= k < |productIds| && productIds[k] == id;
      assert products[k] in products;
    }
    forall id | id in ProductIds(products)
      ensures id in productIds
    {
      var p :| p in products && p.id == id;
      var k :| 0 <= k < |products| && products[k] == p;
      assert productIds[k] == id;
    }
  }

  /** The inner loop of `appendWithValue`. */
  method ValuesOfProduct(entries: map<string, AttributeEntry>, collected: seq<Attribute>, values: map<string, string>)
    returns (updated: map<string, AttributeEntry>)
    ensures updated == ProductValues(entries, collected, values)
  {
    updated := entries;
    var j := 0;
    while j < |collected|
      invariant 0 <= j <= |collected|
      invariant updated == ProductValues(entries, collected[..j], values)
    {
      var code := collected[j].code;
      assert collected[..j + 1][..j] == collected[..j];
      if code in values {
        updated := updated[code := WithValue(updated, code, values[code])];
      }
      j := j + 1;
    }
    assert collected[..j] == collected;
  }

  /** `appendWithValue`: every loaded product, that is every listed id the
      catalog has, gets its values. */
  method AppendWithValue(collected: seq<Attribute>, productIds: seq<ProductId>, values: map<ProductId, map<string, string>>,
                         attributes: ProductAttributes) returns (updated: ProductAttributes)
    requires forall id :: id in productIds <==> id in attributes
    ensures updated == WithValues(attributes, collected, values)
  {
    updated := attributes;
    var loaded := set id | id in productIds && id in values;
    assert forall id :: id in loaded ==> id in attributes && id in values;
    while loaded != {}
      invariant forall id :: id in loaded ==> id in attributes && id in values
      invariant updated.Keys == attributes.Keys
      invariant forall id :: id in updated ==>
        updated[id] == if id in values && id !in loaded then ProductValues(attributes[id], collected, values[id]) else attributes[id]
      decreases loaded
    {
      ghost var picked := Element(loaded);
      var id :| id in loaded;
      var entries := ValuesOfProduct(updated[id], collected, values[id]);
      updated := updated[id := entries];
      loaded := loaded - {id};
    }
    ghost var target := WithValues(attributes, collected, values);
    assert forall id :: id in updated ==> updated[id] == target[id];
  }

  /** The `$formattedAttributes` loop. */
  method FormatAttributes(collected: seq<Attribute>) returns (formatted: seq<FormattedAttribute>)
    ensures formatted == FormattedAttributes(collected)
  {
    formatted := [];
    var i := 0;
    while i < |collected|
      invariant 0 <= i <= |collected|
      invariant formatted == FormattedAttributes(collected[..i])
    {
      var attribute := collected[i];
      assert collected[..i + 1][..i] == collected[..i];
      if attribute.options != [] {
        formatted := formatted + [FormattedAttribute(attribute.code, attribute.id, attribute.options[1..])];
      }
      i := i + 1;
    }
    assert collected[..i] == collected;
  }

  /** One pass of the inner loop of `appendWithOptions`. */
  method ApplyOptionStep(attributes: ProductAttributes, f: FormattedAttribute, product: Product)
    returns (updated: ProductAttributes)
    ensures updated == OptionStep(attributes, f, product)
  {
    updated := attributes;
    if product.id in updated && f.code in updated[product.id] {
      var variants := Variants(product, f.id);
      var entry := updated[product.id][f.code];
      if entry.value.None? && |NonFalsy(variants)| == 0 {
        updated := updated[product.id := updated[product.id] - {f.code}];
      } else {
        var selected := SelectedValues(entry.value, variants);
        var kept := KeptOptions(f.options, selected);
        updated := updated[product.id := updated[product.id][f.code := entry.(options := Some(kept))]];
      }
    }
  }

  /** `appendWithOptions` without the swatch data. */
  method AppendWithOptions(collected: seq<Attribute>, products: seq<Product>, attributes: ProductAttributes)
    returns (updated: ProductAttributes)
    ensures updated == WithOptions(attributes, FormattedAttributes(collected), products)
  {
    var formatted := FormatAttributes(collected);
    updated := attributes;
    var i := 0;
    while i < |formatted|
      invariant 0 <= i <= |formatted|
      invariant updated == WithOptions(attributes, formatted[..i], products)
    {
      var f := formatted[i];
      ghost var before := updated;
      var j := 0;
      while j < |products|
        invariant 0 <= j <= |products|
        invariant updated == OptionsForProducts(before, f, products[..j])
      {
        assert products[..j + 1][..j] == products[..j];
        updated := ApplyOptionStep(updated, f, products[j]);
        j := j + 1;
      }
      assert products[..j] == products;
      assert formatted[..i + 1][..i] == formatted[..i];
      i := i + 1;
    }
    assert formatted[..i] == formatted;
  }

  /** The body of `process` once the fields and the skip rule are known. */
  method ComputeProductAttributes(catalog: Catalog, products: seq<Product>, fields: seq<Option<string>>, rule: SkipRule)
    returns (productAttributes: ProductAttributes)
    ensures productAttributes == ProductAttributesFor(catalog, products, fields, rule)
  {
    var isCollectOptions := Some(ATTRIBUTE_OPTIONS) in fields;
    var sets := CollectSets(products);
    var data, collected := CollectAttributes(sets, rule);
    data := AppendWithGroup(collected, SetIds(sets), catalog.groups, data);
    var productIds;
    productAttributes, productIds := BuildProductAttributes(products, data);
    BaseAttributesOf(products, data);
    productAttributes := AppendWithValue(collected, productIds, catalog.values, productAttributes);
    if isCollectOptions {
      productAttributes := AppendWithOptions(collected, products, productAttributes);
    }
  }

  class Attributes {
    const catalog: Catalog
    /** Loaded on the first `process` that needs it; an empty table is
        loaded again every time. */
    var configurableAttributeIds: seq<int>
    /** Loads of the configurable attribute ids so far. */
    ghost var loads: nat

    ghost predicate Valid()
      reads this
    {
      configurableAttributeIds == [] || configurableAttributeIds == catalog.superAttributeIds
    }

    constructor (catalog: Catalog)
      ensures Valid()
      ensures this.catalog == catalog && configurableAttributeIds == [] && loads == 0
    {
      this.catalog := catalog;
      configurableAttributeIds := [];
      loads := 0;
    }

    /** `getConfigurableAttributeIds` */
    method GetConfigurableAttributeIds()
      modifies this
      ensures Valid()
      ensures configurableAttributeIds == catalog.superAttributeIds
      ensures loads == old(loads) + 1
    {
      configurableAttributeIds := catalog.superAttributeIds;
      loads := loads + 1;
    }

    /** `process`: the ids are loaded at most once per call, and not at all
        once a non-empty list is held. */
    method Process(products: seq<Product>, path: string, source: ResolveSource, options: ProcessorOptions)
      returns (cb: Callback)
      requires Valid()
      modifies this
      ensures Valid()
      ensures cb == AttributesCallback(catalog, products, path, source, options)
      ensures loads <= old(loads) + 1
      ensures old(configurableAttributeIds) != [] ==> loads == old(loads)
    {
      var isSingleProduct := Flag(options.isSingleProduct);
      var isCompare := Flag(options.isCompare);
      var isCartProduct := Flag(options.isCartProduct);
      var fields := GetFieldsFromProductInfo(AttributeFields, source, path);
      if |fields| == 0 {
        return Unchanged;
      }
      if configurableAttributeIds == [] {
        GetConfigurableAttributeIds();
      }
      var rule := SkipRule(configurableAttributeIds, isSingleProduct, isCompare, isCartProduct);
      var productAttributes := ComputeProductAttributes(catalog, products, fields, rule);
      return WriteAttributes(productAttributes);
    }
  }
}
