/** The storefront product page's own state: the quantity stepper and the
    colour choice. */
module ProductDetail {
  import opened Strings

  function Max(a: int, b: int): int { if a < b then b else a }
  function Min(a: int, b: int): int { if a < b then a else b }

  /** `parseInt(text) || 1`: the typed number, or 1 for text that is not a
      number or is 0. */
  function TypedQuantity(text: string): int
  {
    ParseIntOr(text, 1)
  }

  /** The quantity box takes what is typed without clamping: any number but 0
      is kept, above the stock or below 1 alike; anything else gives 1. */
  lemma TypedQuantitySpec(n: int)
    ensures n != 0 ==> TypedQuantity(IntToString(n)) == n
    ensures TypedQuantity(IntToString(0)) == 1
    ensures TypedQuantity("") == 1
  {
    ParseIntToString(n);
    ParseIntToString(0);
  }

  /** The page's state, for a product with a stock count and a colour list. */
  class ProductDetailPage {
    var quantity: int
    var selectedColor: string
    const stock: int
    const colors: seq<string>

    constructor (stock: int, colors: seq<string>)
      ensures quantity == 1 && selectedColor == ""
      ensures this.stock == stock && this.colors == colors
    {
      quantity := 1;
      selectedColor := "";
      this.stock := stock;
      this.colors := colors;
    }

    /** The '-' button: `Math.max(1, quantity - 1)`. */
    method Decrement()
      modifies this
      ensures quantity == Max(1, old(quantity) - 1)
      ensures quantity >= 1
      ensures old(quantity) > 1 ==> quantity == old(quantity) - 1
      ensures selectedColor == old(selectedColor)
    {
      quantity := Max(1, quantity - 1);
    }

    /** The '+' button: `Math.min(stock_quantity, quantity + 1)`. */
    method Increment()
      modifies this
      ensures quantity == Min(stock, old(quantity) + 1)
      ensures quantity <= stock && quantity <= old(quantity) + 1
      ensures old(quantity) < stock ==> quantity == old(quantity) + 1
      ensures stock == 0 && old(quantity) >= 0 ==> quantity == 0
      ensures selectedColor == old(selectedColor)
    {
      quantity := Min(stock, quantity + 1);
    }

    /** The quantity input's onChange. */
    method TypeQuantity(text: string)
      modifies this
      ensures quantity == TypedQuantity(text)
      ensures selectedColor == old(selectedColor)
    {
      quantity := ParseIntOr(text, 1);
    }

    /** A colour button. */
    method SelectColor(color: string)
      modifies this
      ensures selectedColor == color && quantity == old(quantity)
    {
      selectedColor := color;
    }

    /** The colour in the heading: `selectedColor || colors[0]`. */
    function DisplayedColor(): (c: string)
      reads this
      requires |colors| > 0
      ensures selectedColor != "" ==> c == selectedColor
      ensures selectedColor == "" ==> c == colors[0]
    {
      if selectedColor != "" then selectedColor else colors[0]
    }

    /** The button drawn with the dark border. */
    predicate Highlighted(color: string)
      reads this
      requires |colors| > 0
    {
      selectedColor == color || (selectedColor == "" && color == colors[0])
    }
  }

  /** The stepper buttons keep a quantity between 1 and a positive stock
      there, and '-' never takes any quantity below 1. */
  method StepperKeepsRange(page: ProductDetailPage, up: bool)
    requires page.stock >= 1 && 1 <= page.quantity <= page.stock
    modifies page
    ensures 1 <= page.quantity <= page.stock
  {
    if up {
      page.Increment();
    } else {
      page.Decrement();
    }
  }

  /** The highlighted button is the colour the heading shows, and no other
      (a colour named '' would also be highlighted while none is chosen). */
  lemma HighlightedIsDisplayed(page: ProductDetailPage, color: string)
    requires |page.colors| > 0 && color != ""
    ensures page.Highlighted(color) <==> color == page.DisplayedColor()
  {
  }
}
