/**
 * The OCR processor's post-processing: amount normalisation and the fold of Document AI
 * entities into the receipt fields handed back to the core API.
 */
module OcrProcessor {
  import opened Common
  import opened Text

  // ---------------------------------------------------------------- amounts

  /** `clean_and_convert_amount`: every non-digit is deleted and the digits that remain are read as a number. */
  function CleanAndConvertAmount(amountText: string): (r: Option<nat>)
    ensures r.None? <==> forall i :: 0 <= i < |amountText| ==> !IsDigit(amountText[i])
  {
    if amountText == [] then None
    else
      var cleaned := KeepDigits(amountText);
      if cleaned == [] then None else Some(DigitsValue(cleaned))
  }

  /** A plain decimal number reads back as itself. */
  lemma CleanDecimal(n: nat)
    ensures CleanAndConvertAmount(NatToString(n)) == Some(n)
  {
    NatToStringRoundTrip(n);
    KeepDigitsOfDigits(NatToString(n));
  }

  /** Currency signs, separators and other non-digits anywhere in the text do not change the amount. */
  lemma CleanIgnoresNonDigit(a: string, c: char, b: string)
    requires !IsDigit(c)
    ensures CleanAndConvertAmount(a + [c] + b) == CleanAndConvertAmount(a + b)
  {
    KeepDigitsConcat(a + [c], b);
    KeepDigitsConcat(a, [c]);
    KeepDigitsConcat(a, b);
    assert KeepDigits([c]) == [];
    assert KeepDigits(a) + [] == KeepDigits(a);
    assert KeepDigits(a + [c] + b) == KeepDigits(a + b);
  }

  /** "¥1,234" is 1234 yen. */
  lemma CleanYen()
    ensures CleanAndConvertAmount("¥1,234") == Some(1234)
  {
    YenDigits();
    DigitsOf1234();
  }

  lemma YenDigits()
    ensures KeepDigits("¥1,234") == "1234"
  {
    assert "¥1,234"[1..] == "1,234" && "1,234"[1..] == ",234" && ",234"[1..] == "234";
    assert "234"[1..] == "34" && "34"[1..] == "4" && "4"[1..] == "";
    assert "¥1,234"[0] == '¥' && "1,234"[0] == '1' && ",234"[0] == ',';
    assert "234"[0] == '2' && "34"[0] == '3' && "4"[0] == '4';
  }

  lemma DigitsOf1234()
    ensures AllDigits("1234") && DigitsValue("1234") == 1234
  {
    assert "1234"[..3] == "123" && "123"[..2] == "12" && "12"[..1] == "1" && "1"[..0] == "";
  }

  // ---------------------------------------------------------------- entities

  /** A Document AI property or entity: its type name, its recognised text and its child properties. */
  datatype Property = Property(kind: string, mentionText: string)
  datatype Entity = Entity(kind: string, mentionText: string, properties: seq<Property>)

  /**
   * The dictionary built for a line item. `amount` is the key's presence: `Some(None)` is an
   * amount property whose text held no digit.
   */
  datatype LineItem = LineItem(description: Option<string>, amount: Option<Option<nat>>)

  /** The fields the processor returns. */
  datatype Extracted = Extracted(supplierName: Option<string>, supplierPhone: Option<string>,
                                 totalAmount: Option<nat>, lineItems: seq<LineItem>)

  const NoItem := LineItem(None, None)
  const NothingYet := Extracted(None, None, None, [])

  function ApplyProperty(item: LineItem, p: Property): LineItem {
    if p.kind == "line_item/description" then item.(description := Some(p.mentionText))
    else if p.kind == "line_item/amount" then item.(amount := Some(CleanAndConvertAmount(p.mentionText)))
    else item
  }

  /** The line item after visiting its properties in order. */
  function ItemOf(props: seq<Property>): LineItem {
    if props == [] then NoItem else ApplyProperty(ItemOf(props[..|props| - 1]), props[|props| - 1])
  }

  /** One turn of the entity loop. */
  function ApplyEntity(x: Extracted, e: Entity): Extracted {
    if e.kind == "total_amount" then x.(totalAmount := CleanAndConvertAmount(e.mentionText))
    else if e.kind == "supplier_name" then x.(supplierName := Some(e.mentionText))
    else if e.kind == "supplier_phone" then x.(supplierPhone := Some(e.mentionText))
    else if e.kind == "line_item" then
      var item := ItemOf(e.properties);
      if item != NoItem then x.(lineItems := x.lineItems + [item]) else x
    else x
  }

  /** The fields after visiting the entities in order. */
  function FoldEntities(entities: seq<Entity>): Extracted {
    if entities == [] then NothingYet else ApplyEntity(FoldEntities(entities[..|entities| - 1]), entities[|entities| - 1])
  }

  /** The entity loop of `process_receipt_from_gcs`, with its inner loop over a line item's properties. */
  method ExtractFields(entities: seq<Entity>) returns (x: Extracted)
    ensures x == FoldEntities(entities)
  {
    x := NothingYet;
    var k := 0;
    while k < |entities|
      invariant 0 <= k <= |entities|
      invariant x == FoldEntities(entities[..k])
    {
      var e := entities[k];
      assert entities[..k + 1][..k] == entities[..k];
      if e.kind == "total_amount" {
        x := x.(totalAmount := CleanAndConvertAmount(e.mentionText));
      } else if e.kind == "supplier_name" {
        x := x.(supplierName := Some(e.mentionText));
      } else if e.kind == "supplier_phone" {
        x := x.(supplierPhone := Some(e.mentionText));
      } else if e.kind == "line_item" {
        var item := NoItem;
        var i := 0;
        while i < |e.properties|
          invariant 0 <= i <= |e.properties|
          invariant item == ItemOf(e.properties[..i])
        {
          assert e.properties[..i + 1][..i] == e.properties[..i];
          var p := e.properties[i];
          if p.kind == "line_item/description" {
            item := item.(description := Some(p.mentionText));
          } else if p.kind == "line_item/amount" {
            item := item.(amount := Some(CleanAndConvertAmount(p.mentionText)));
          }
          i := i + 1;
        }
        assert e.properties[..i] == e.properties;
        if item != NoItem {
          x := x.(lineItems := x.lineItems + [item]);
        }
      }
      k := k + 1;
    }
    assert entities[..k] == entities;
  }

  /** Index `i` is the last entity of type `kind`. */
  predicate LastOfKind(entities: seq<Entity>, i: int, kind: string) {
    0 <= i < |entities| && entities[i].kind == kind && forall j :: i < j < |entities| ==> entities[j].kind != kind
  }

  /** What one entity changes: only the field its type names. */
  lemma ApplyEntityFields(x: Extracted, e: Entity)
    ensures ApplyEntity(x, e).totalAmount == if e.kind == "total_amount" then CleanAndConvertAmount(e.mentionText) else x.totalAmount
    ensures ApplyEntity(x, e).supplierName == if e.kind == "supplier_name" then Some(e.mentionText) else x.supplierName
    ensures ApplyEntity(x, e).supplierPhone == if e.kind == "supplier_phone" then Some(e.mentionText) else x.supplierPhone
  {
  }

  /** A later total, supplier name or phone overwrites an earlier one: the last entity of each type decides it. */
  lemma {:induction false} LastEntityWins(entities: seq<Entity>, i: int, kind: string)
    requires LastOfKind(entities, i, kind)
    ensures kind == "total_amount" ==> FoldEntities(entities).totalAmount == CleanAndConvertAmount(entities[i].mentionText)
    ensures kind == "supplier_name" ==> FoldEntities(entities).supplierName == Some(entities[i].mentionText)
    ensures kind == "supplier_phone" ==> FoldEntities(entities).supplierPhone == Some(entities[i].mentionText)
  {
    var n := |entities| - 1;
    var pre := entities[..n];
    var x := FoldEntities(pre);
    var e := entities[n];
    var text := entities[i].mentionText;
    assert FoldEntities(entities) == ApplyEntity(x, e);
    ApplyEntityFields(x, e);
    if i < n {
      assert LastOfKind(pre, i, kind) by {
        assert forall j :: i < j < |pre| ==> pre[j] == entities[j];
      }
      LastEntityWins(pre, i, kind);
      assert pre[i].mentionText == text;
      assert e.kind != kind;
      if kind == "total_amount" {
        assert FoldEntities(entities).totalAmount == x.totalAmount;
      } else if kind == "supplier_name" {
        assert FoldEntities(entities).supplierName == x.supplierName;
      } else if kind == "supplier_phone" {
        assert FoldEntities(entities).supplierPhone == x.supplierPhone;
      }
    } else {
      assert e.mentionText == text && e.kind == kind;
    }
  }

  /** Without an entity of a type the field stays empty. */
  lemma {:induction false} AbsentEntityKind(entities: seq<Entity>)
    ensures (forall j :: 0 <= j < |entities| ==> entities[j].kind != "total_amount") ==> FoldEntities(entities).totalAmount == None
    ensures (forall j :: 0 <= j < |entities| ==> entities[j].kind != "supplier_name") ==> FoldEntities(entities).supplierName == None
    ensures (forall j :: 0 <= j < |entities| ==> entities[j].kind != "supplier_phone") ==> FoldEntities(entities).supplierPhone == None
  {
    if entities != [] {
      var pre := entities[..|entities| - 1];
      assert forall j :: 0 <= j < |pre| ==> pre[j] == entities[j];
      AbsentEntityKind(pre);
    }
  }

  /** Index `i` is the last property of type `kind`. */
  predicate LastPropertyOfKind(props: seq<Property>, i: int, kind: string) {
    0 <= i < |props| && props[i].kind == kind && forall j :: i < j < |props| ==> props[j].kind != kind
  }

  /** Within a line item, the last description and the last amount property decide. */
  lemma {:induction false} LastPropertyWins(props: seq<Property>, i: int, kind: string)
    requires LastPropertyOfKind(props, i, kind)
    ensures kind == "line_item/description" ==> ItemOf(props).description == Some(props[i].mentionText)
    ensures kind == "line_item/amount" ==> ItemOf(props).amount == Some(CleanAndConvertAmount(props[i].mentionText))
  {
    var n := |props| - 1;
    var pre := props[..n];
    var item := ItemOf(pre);
    var p := props[n];
    var text := props[i].mentionText;
    assert ItemOf(props) == ApplyProperty(item, p);
    if i < n {
      assert LastPropertyOfKind(pre, i, kind) by {
        assert forall j :: i < j < |pre| ==> pre[j] == props[j];
      }
      LastPropertyWins(pre, i, kind);
      assert pre[i].mentionText == text;
      assert p.kind != kind;
      if kind == "line_item/description" {
        assert ItemOf(props).description == item.description;
      } else if kind == "line_item/amount" {
        assert ItemOf(props).amount == item.amount;
      }
    } else {
      assert p.mentionText == text && p.kind == kind;
    }
  }

  /** A line item without a description (or an amount) property leaves that key out. */
  lemma {:induction false} AbsentPropertyKind(props: seq<Property>)
    ensures (forall j :: 0 <= j < |props| ==> props[j].kind != "line_item/description") ==> ItemOf(props).description == None
    ensures (forall j :: 0 <= j < |props| ==> props[j].kind != "line_item/amount") ==> ItemOf(props).amount == None
  {
    if props != [] {
      var pre := props[..|props| - 1];
      assert forall j :: 0 <= j < |pre| ==> pre[j] == props[j];
      AbsentPropertyKind(pre);
    }
  }

  /**
   * Line items keep the order of their entities, and a line item entity adds an item exactly
   * when one of its properties is a description or an amount; other entities add none.
   */
  lemma {:induction false} LineItemsKept(entities: seq<Entity>)
    ensures forall k :: 0 <= k < |FoldEntities(entities).lineItems| ==>
      FoldEntities(entities).lineItems[k].description.Some? || FoldEntities(entities).lineItems[k].amount.Some?
    ensures |FoldEntities(entities).lineItems| <= |entities|
  {
    if entities != [] {
      LineItemsKept(entities[..|entities| - 1]);
    }
  }

  /** Visiting one more entity adds a line item exactly for a line item entity with a description or an amount. */
  lemma OneMoreEntity(entities: seq<Entity>, e: Entity)
    ensures var before := FoldEntities(entities).lineItems;
      var after := FoldEntities(entities + [e]).lineItems;
      var named := exists j :: 0 <= j < |e.properties| && e.properties[j].kind in {"line_item/description", "line_item/amount"};
      && (e.kind == "line_item" && named ==> after == before + [ItemOf(e.properties)])
      && (!(e.kind == "line_item" && named) ==> after == before)
  {
    assert FoldEntities(entities + [e]) == ApplyEntity(FoldEntities(entities), e) by {
      assert (entities + [e])[..|entities|] == entities;
    }
    ItemNamed(e.properties);
  }

  /** A line item is built exactly when some property is a description or an amount. */
  lemma ItemNamed(props: seq<Property>)
    ensures ItemOf(props) != NoItem <==>
      exists j :: 0 <= j < |props| && props[j].kind in {"line_item/description", "line_item/amount"}
  {
    AbsentPropertyKind(props);
    if exists j :: 0 <= j < |props| && props[j].kind in {"line_item/description", "line_item/amount"} {
      var j :| 0 <= j < |props| && props[j].kind in {"line_item/description", "line_item/amount"};
      var kind := props[j].kind;
      var last := LastIndexOf(props, j, kind);
      LastPropertyWins(props, last, kind);
    }
  }

  /** The last property of a type at or after a given one. */
  lemma {:induction false} LastIndexOf(props: seq<Property>, j: int, kind: string) returns (last: int)
    requires 0 <= j < |props| && props[j].kind == kind
    ensures LastPropertyOfKind(props, last, kind)
    decreases |props| - j
  {
    if exists k :: j < k < |props| && props[k].kind == kind {
      var k :| j < k < |props| && props[k].kind == kind;
      last := LastIndexOf(props, k, kind);
    } else {
      last := j;
    }
  }

  // ---------------------------------------------------------------- the response

  datatype ExtractionError = ExtractionError(status: int)

  /**
   * `process_receipt_from_gcs` after the OCR call: nothing extracted (a falsy total, where 0
   * counts, no supplier name and no items) raises 400, which the broad handler turns into 500.
   */
  function ProcessEntities(entities: seq<Entity>): Result<Extracted, ExtractionError> {
    var x := FoldEntities(entities);
    var total := if x.totalAmount.Some? then Some(x.totalAmount.value as int) else None;
    if !TruthyInt(total) && !TruthyStr(x.supplierName) && x.lineItems == [] then Err(ExtractionError(500))
    else Ok(x)
  }

  method ProcessReceiptEntities(entities: seq<Entity>) returns (r: Result<Extracted, ExtractionError>)
    ensures r == ProcessEntities(entities)
  {
    var x := ExtractFields(entities);
    if (x.totalAmount.None? || x.totalAmount.value == 0) && (x.supplierName.None? || x.supplierName.value == "") && x.lineItems == [] {
      return Err(ExtractionError(500));
    }
    return Ok(x);
  }

  /** The request fails, always with status 500, exactly when no field carries anything. */
  lemma ProcessOutcome(entities: seq<Entity>)
    ensures var x := FoldEntities(entities);
      && (ProcessEntities(entities).Err? <==>
            (x.totalAmount.None? || x.totalAmount == Some(0)) && (x.supplierName.None? || x.supplierName == Some(""))
            && x.lineItems == [])
      && (ProcessEntities(entities).Err? ==> ProcessEntities(entities).error.status == 500)
      && (ProcessEntities(entities).Ok? ==> ProcessEntities(entities).value == x)
  {
  }

  /** A document with no entities fails; one supplier entity with a name is enough to succeed. */
  lemma ProcessExamples(name: string)
    requires name != ""
    ensures ProcessEntities([]).Err?
    ensures ProcessEntities([Entity("supplier_name", name, [])]) == Ok(Extracted(Some(name), None, None, []))
  {
    assert [Entity("supplier_name", name, [])][..0] == [];
  }
}
