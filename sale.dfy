/** A single recorded sale; its price is rewritten in place by adjustments. */
module Sales {
  import opened JavaInt

  class Sale {
    var saleType: string
    var salePrice: i32

    constructor (saleType: string, salePrice: i32)
      ensures GetType() == saleType && GetPrice() == salePrice
    {
      this.saleType := saleType;
      this.salePrice := salePrice;
    }

    function GetType(): (r: string)
      reads this
      ensures r == saleType
    {
      saleType
    }

    /** Changes the category and nothing else. */
    method SetType(saleType: string)
      modifies this
      ensures GetType() == saleType && GetPrice() == old(GetPrice())
    {
      this.saleType := saleType;
    }

    function GetPrice(): (r: i32)
      reads this
      ensures r == salePrice
    {
      salePrice
    }

    /** Changes the price and nothing else. */
    method SetPrice(salePrice: i32)
      modifies this
      ensures GetPrice() == salePrice && GetType() == old(GetType())
    {
      this.salePrice := salePrice;
    }
  }
}
