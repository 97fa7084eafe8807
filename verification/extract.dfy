/** The record extractor: one raw label record to one flat row. */
module Extract {
  import opened Wrappers
  import opened Json

  /** The result of evaluating a Python expression: a value, or an exception. */
  datatype Access = Value(v: JValue) | Raises

  /** One extracted row: brand name, manufacturer, product type, route. The fields
      hold whatever `[0]` yielded, so they are JSON values and not only strings. */
  datatype DrugRecord = DrugRecord(brandName: JValue, manufacturer: JValue, productType: JValue, route: JValue)

  /** The "not available" sentinel. */
  const NA: JValue := JStr("N/A")

  const OPENFDA: string := "openfda"
  const BRAND_NAME: string := "brand_name"
  const MANUFACTURER_NAME: string := "manufacturer_name"
  const PRODUCT_TYPE: string := "product_type"
  const ROUTE: string := "route"

  /** `obj.get(key, default)`: only a dict has `.get`; on any other value it raises. */
  function DictGet(obj: JValue, key: string, default: JValue): (a: Access)
    ensures a.Raises? <==> !obj.JObj?
    ensures a.Value? && key in obj.fields ==> a.v == obj.fields[key]
    ensures a.Value? && key !in obj.fields ==> a.v == default
  {
    match obj
    case JObj(fields) => Value(if key in fields then fields[key] else default)
    case _ => Raises
  }

  /** A value that `[0]` can take apart: a non-empty list or a non-empty string. */
  predicate Indexable(v: JValue)
  {
    (v.JList? && |v.items| > 0) || (v.JStr? && |v.s| > 0)
  }

  /** What `[0]` yields on an indexable value. */
  function Head(v: JValue): JValue
    requires Indexable(v)
  {
    if v.JList? then v.items[0] else JStr([v.s[0]])
  }

  /** `v[0]`: the first element of a list, the first character of a string. An empty
      list or string raises IndexError, a dict raises KeyError (JSON keys are strings,
      never 0), an int or None raises TypeError. */
  function First(v: JValue): (a: Access)
    ensures a.Value? <==> Indexable(v)
    ensures a.Value? ==> a.v == Head(v)
  {
    match v
    case JList(items) => if |items| > 0 then Value(items[0]) else Raises
    case JStr(s) => if |s| > 0 then Value(JStr([s[0]])) else Raises
    case _ => Raises
  }

  /** The `openfda` block of a record as the extractor reads it: absent reads as `{}`. */
  function OpenFdaBlock(drug: JValue): JValue
    requires drug.JObj?
  {
    if OPENFDA in drug.fields then drug.fields[OPENFDA] else JObj(map[])
  }

  /** `drug.get('openfda', {}).get(key, ['N/A'])[0]`, one column of the row. */
  function OpenFdaField(drug: JValue, key: string): (a: Access)
    requires drug.JObj?
    ensures a.Raises? <==>
              !OpenFdaBlock(drug).JObj? ||
              (key in OpenFdaBlock(drug).fields && !Indexable(OpenFdaBlock(drug).fields[key]))
    ensures a.Value? && OPENFDA !in drug.fields ==> a.v == NA
    ensures a.Value? ==> a.v == if key in OpenFdaBlock(drug).fields then Head(OpenFdaBlock(drug).fields[key]) else NA
  {
    match DictGet(drug, OPENFDA, JObj(map[]))
    case Raises => Raises
    case Value(block) =>
      match DictGet(block, key, JList([NA]))
      case Raises => Raises
      case Value(column) => First(column)
  }

  /** `extract_record`: the four columns, or None (the whole record is discarded)
      as soon as any one of them raises. The caller guarantees a dict record. */
  function ExtractRecord(drug: JValue): (r: Option<DrugRecord>)
    requires drug.JObj?
    ensures r.None? <==>
              OpenFdaField(drug, BRAND_NAME).Raises? || OpenFdaField(drug, MANUFACTURER_NAME).Raises? ||
              OpenFdaField(drug, PRODUCT_TYPE).Raises? || OpenFdaField(drug, ROUTE).Raises?
    ensures r.Some? ==>
              && r.value.brandName == OpenFdaField(drug, BRAND_NAME).v
              && r.value.manufacturer == OpenFdaField(drug, MANUFACTURER_NAME).v
              && r.value.productType == OpenFdaField(drug, PRODUCT_TYPE).v
              && r.value.route == OpenFdaField(drug, ROUTE).v
  {
    match (OpenFdaField(drug, BRAND_NAME), OpenFdaField(drug, MANUFACTURER_NAME),
           OpenFdaField(drug, PRODUCT_TYPE), OpenFdaField(drug, ROUTE))
    case (Value(brand), Value(maker), Value(kind), Value(route)) => Some(DrugRecord(brand, maker, kind, route))
    case _ => None
  }

  /** A record with no `openfda` block, or an empty one, extracts to four sentinels. */
  lemma ExtractWithoutOpenFda(drug: JValue)
    requires drug.JObj?
    requires OPENFDA !in drug.fields || drug.fields[OPENFDA] == JObj(map[])
    ensures ExtractRecord(drug) == Some(DrugRecord(NA, NA, NA, NA))
  {
  }

  /** A column given as a list whose first element is x. */
  predicate ListStartingWith(column: JValue, x: JValue)
  {
    column.JList? && |column.items| > 0 && column.items[0] == x
  }

  /** A populated block extracts to the first element of each of its four lists. */
  lemma ExtractPopulated(drug: JValue, brand: JValue, maker: JValue, kind: JValue, route: JValue)
    requires drug.JObj? && OPENFDA in drug.fields && drug.fields[OPENFDA].JObj?
    requires var block := drug.fields[OPENFDA].fields;
             && BRAND_NAME in block && ListStartingWith(block[BRAND_NAME], brand)
             && MANUFACTURER_NAME in block && ListStartingWith(block[MANUFACTURER_NAME], maker)
             && PRODUCT_TYPE in block && ListStartingWith(block[PRODUCT_TYPE], kind)
             && ROUTE in block && ListStartingWith(block[ROUTE], route)
    ensures ExtractRecord(drug) == Some(DrugRecord(brand, maker, kind, route))
  {
  }

  /** A missing column alone yields the sentinel for that column only. */
  lemma ExtractMissingColumn(drug: JValue)
    requires drug.JObj? && OPENFDA in drug.fields && drug.fields[OPENFDA].JObj?
    requires BRAND_NAME !in drug.fields[OPENFDA].fields
    requires ExtractRecord(drug).Some?
    ensures ExtractRecord(drug).value.brandName == NA
  {
  }

  /** Any structural failure discards the whole record, with no per-column sentinel:
      a block that is present but not a dict (None included), or one of the four
      columns that is an empty list, an empty string, a number, None or a dict. */
  lemma ExtractDiscards(drug: JValue, key: string)
    requires drug.JObj? && key in {BRAND_NAME, MANUFACTURER_NAME, PRODUCT_TYPE, ROUTE}
    requires OPENFDA in drug.fields
    requires var block := drug.fields[OPENFDA];
             !block.JObj? || (key in block.fields && !Indexable(block.fields[key]))
    ensures ExtractRecord(drug).None?
  {
  }

  /** A column that holds a bare string instead of a list yields its first character. */
  lemma ExtractStringColumn(drug: JValue, name: string)
    requires drug.JObj? && OPENFDA in drug.fields && drug.fields[OPENFDA].JObj?
    requires var block := drug.fields[OPENFDA].fields;
             && BRAND_NAME in block && block[BRAND_NAME] == JStr(name) && |name| > 0
    requires ExtractRecord(drug).Some?
    ensures ExtractRecord(drug).value.brandName == JStr([name[0]])
  {
  }

  /** The worked example: an Advil label. */
  lemma ExtractAdvil()
    ensures
      var block := JObj(map[BRAND_NAME := JList([JStr("Advil")]),
                            MANUFACTURER_NAME := JList([JStr("Pfizer")]),
                            PRODUCT_TYPE := JList([JStr("HUMAN OTC DRUG")]),
                            ROUTE := JList([JStr("ORAL")])]);
      ExtractRecord(JObj(map[OPENFDA := block])) ==
        Some(DrugRecord(JStr("Advil"), JStr("Pfizer"), JStr("HUMAN OTC DRUG"), JStr("ORAL")))
  {
  }
}
