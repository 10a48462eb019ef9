/** The order form shown under a product: its schema, its defaults, the
    colour and size pickers, and the order record sent on submit. */
module OrderForm {
  import opened Optional
  import opened JsStrings
  import opened Products

  /** The form values; an optional field the customer never touched is
      `None`. The quantity is a JavaScript number. */
  datatype OrderValues = OrderValues(
    customerName: string,
    customerPhone: string,
    customerAddress: Option<string>,
    selectedColor: Option<string>,
    selectedSize: Option<string>,
    quantity: real
  )

  /** The fields the schema can reject */
  datatype OrderField = NameField | PhoneField | QuantityField

  /** The schema: a name of at least two characters, a phone of at least
      eight, whatever characters they are, and a quantity of at least 1 */
  predicate ValidOrder(f: OrderValues) {
    Utf16Length(f.customerName) >= 2 && Utf16Length(f.customerPhone) >= 8 && f.quantity >= 1.0
  }

  function OrderErrors(f: OrderValues): (e: set<OrderField>)
    ensures NameField in e <==> Utf16Length(f.customerName) < 2
    ensures PhoneField in e <==> Utf16Length(f.customerPhone) < 8
    ensures QuantityField in e <==> f.quantity < 1.0
  {
    (if Utf16Length(f.customerName) < 2 then {NameField} else {})
    + (if Utf16Length(f.customerPhone) < 8 then {PhoneField} else {})
    + (if f.quantity < 1.0 then {QuantityField} else {})
  }

  /** The schema accepts exactly the values on which no field is reported. */
  lemma ValidIffNoErrors(f: OrderValues)
    ensures ValidOrder(f) <==> OrderErrors(f) == {}
  {
    if !ValidOrder(f) {
      if f.quantity < 1.0 {
        assert QuantityField in OrderErrors(f);
      } else if Utf16Length(f.customerPhone) < 8 {
        assert PhoneField in OrderErrors(f);
      } else {
        assert NameField in OrderErrors(f);
      }
    }
  }

  /** The form as first shown: quantity 1, the text inputs empty, nothing
      picked */
  function DefaultOrder(): (f: OrderValues)
    ensures f.quantity == 1.0 && f.selectedColor.None? && f.selectedSize.None?
    ensures OrderErrors(f) == {NameField, PhoneField}
  {
    OrderValues("", "", None, None, None, 1.0)
  }

  /** Name, phone and quantity alone make an acceptable order: address,
      colour and size are optional, the phone is not checked for digits and
      the quantity need not be whole. */
  lemma OptionalFieldsOptional(name: string, phone: string, q: real, address: Option<string>,
                               color: Option<string>, size: Option<string>)
    requires |name| >= 2 && |phone| >= 8 && q >= 1.0
    ensures ValidOrder(OrderValues(name, phone, address, color, size, q))
    ensures ValidOrder(OrderValues("ab", "abcdefgh", None, None, None, 1.5))
  {
    assert Utf16Length("ab") == 2;
    assert Utf16Length("abcdefgh") == 8;
  }

  /** The record sent to the `orders` table */
  datatype OrderPayload = OrderPayload(
    productId: string,
    customerName: string,
    customerPhone: string,
    customerAddress: Option<string>,
    selectedColor: Option<string>,
    selectedSize: Option<string>,
    quantity: real
  )

  /** `onSubmit`, run only once the schema accepts: the shown product's id
      and every form field copied unchanged */
  function SubmitOrder(p: Product, f: OrderValues): (r: Option<OrderPayload>)
    ensures r.Some? <==> ValidOrder(f)
    ensures r.Some? ==> r.value.productId == p.id
    ensures r.Some? ==> OrderValues(r.value.customerName, r.value.customerPhone, r.value.customerAddress,
                                    r.value.selectedColor, r.value.selectedSize, r.value.quantity) == f
  {
    if ValidOrder(f) then
      Some(OrderPayload(p.id, f.customerName, f.customerPhone, f.customerAddress,
                        f.selectedColor, f.selectedSize, f.quantity))
    else None
  }

  /** The picker is rendered only for a product with colours (sizes) */
  predicate ColorPickerShown(p: Product) {
    |p.colors| > 0
  }

  predicate SizePickerShown(p: Product) {
    |p.sizes| > 0
  }

  /** What the customer can do to the form: type into a field, or choose an
      entry of a picker, given by its position among the rendered items */
  datatype OrderEvent =
    | TypeName(text: string)
    | TypePhone(text: string)
    | TypeAddress(text: string)
    | TypeQuantity(q: real)
    | PickColor(index: int)
    | PickSize(index: int)

  /** One event applied to the form; a pick of a position with no rendered
      item (a picker not shown, or out of range) is impossible and changes
      nothing */
  function Apply(p: Product, f: OrderValues, ev: OrderEvent): (r: OrderValues)
    ensures ev.PickColor? && 0 <= ev.index < |p.colors| ==> r == f.(selectedColor := Some(p.colors[ev.index]))
    ensures ev.PickSize? && 0 <= ev.index < |p.sizes| ==> r == f.(selectedSize := Some(p.sizes[ev.index]))
    ensures !ev.PickColor? ==> r.selectedColor == f.selectedColor
    ensures !ev.PickSize? ==> r.selectedSize == f.selectedSize
  {
    match ev
    case TypeName(s) => f.(customerName := s)
    case TypePhone(s) => f.(customerPhone := s)
    case TypeAddress(s) => f.(customerAddress := Some(s))
    case TypeQuantity(q) => f.(quantity := q)
    case PickColor(i) => if 0 <= i < |p.colors| then f.(selectedColor := Some(p.colors[i])) else f
    case PickSize(i) => if 0 <= i < |p.sizes| then f.(selectedSize := Some(p.sizes[i])) else f
  }

  function ApplyAll(p: Product, f: OrderValues, evs: seq<OrderEvent>): OrderValues
    decreases |evs|
  {
    if evs == [] then f else ApplyAll(p, Apply(p, f, evs[0]), evs[1..])
  }

  /** The chosen colour and size are unset or values the product offers */
  predicate ChoicesOffered(p: Product, f: OrderValues) {
    && (f.selectedColor.Some? ==> f.selectedColor.value in p.colors)
    && (f.selectedSize.Some? ==> f.selectedSize.value in p.sizes)
  }

  /** Whatever the customer does, starting from the defaults, a chosen colour
      or size is one of the product's own; with no colours (sizes) none is
      ever chosen. */
  lemma {:induction false} ChoicesStayOffered(p: Product, f: OrderValues, evs: seq<OrderEvent>)
    requires ChoicesOffered(p, f)
    ensures ChoicesOffered(p, ApplyAll(p, f, evs))
    ensures !ColorPickerShown(p) && f.selectedColor.None? ==> ApplyAll(p, f, evs).selectedColor.None?
    ensures !SizePickerShown(p) && f.selectedSize.None? ==> ApplyAll(p, f, evs).selectedSize.None?
    decreases |evs|
  {
    if evs != [] {
      ChoicesStayOffered(p, Apply(p, f, evs[0]), evs[1..]);
    }
  }

  /** A submitted order names a colour and size the product offers. */
  lemma SubmittedChoicesOffered(p: Product, evs: seq<OrderEvent>)
    ensures
      var f := ApplyAll(p, DefaultOrder(), evs);
      SubmitOrder(p, f).Some? ==>
        && (SubmitOrder(p, f).value.selectedColor.Some? ==> SubmitOrder(p, f).value.selectedColor.value in p.colors)
        && (SubmitOrder(p, f).value.selectedSize.Some? ==> SubmitOrder(p, f).value.selectedSize.value in p.sizes)
  {
    ChoicesStayOffered(p, DefaultOrder(), evs);
  }
}
