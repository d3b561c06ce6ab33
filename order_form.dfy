/**
 * The order draft (src/components/models/orderForm.ts): four optional
 * fields, one setter each, and the snapshot sent to the server.
 */
module OrderFormModel {
  import opened Wrappers
  import opened Types
  import opened BasketModel

  /** The basket's product ids, in basket order, duplicates included. */
  function Ids(products: seq<ProductData>): (ids: seq<string>)
    ensures |ids| == |products|
    ensures forall i :: 0 <= i < |ids| ==> ids[i] == products[i].id
  {
    seq(|products|, i requires 0 <= i < |products| => products[i].id)
  }

  class OrderForm {
    var data: OrderData

    constructor ()
      ensures data == EmptyOrder
    {
      data := EmptyOrder;
    }

    /** The `orderData` getter: the current field values. */
    function CurrentData(): OrderData
      reads this
    {
      data
    }

    method SetPayment(payment: string)
      modifies this
      ensures CurrentData() == old(CurrentData()).(payment := Some(payment))
    {
      data := data.(payment := Some(payment));
    }

    method SetAddress(address: string)
      modifies this
      ensures CurrentData() == old(CurrentData()).(address := Some(address))
    {
      data := data.(address := Some(address));
    }

    method SetEmail(email: string)
      modifies this
      ensures CurrentData() == old(CurrentData()).(email := Some(email))
    {
      data := data.(email := Some(email));
    }

    method SetPhone(phone: string)
      modifies this
      ensures CurrentData() == old(CurrentData()).(phone := Some(phone))
    {
      data := data.(phone := Some(phone));
    }

    /**
     * The value sent to the server: the set fields as they are (unset ones
     * stay absent), the basket total and the basket's ids in order.
     */
    function PrepareForApi(basket: Basket): (r: OrderApi)
      reads this, basket
      ensures r.payment == data.payment && r.address == data.address
      ensures r.email == data.email && r.phone == data.phone
      ensures r.total == basket.total
      ensures |r.items| == |basket.products|
      ensures forall i :: 0 <= i < |r.items| ==> r.items[i] == basket.products[i].id
    {
      OrderApi(data.payment, data.email, data.phone, data.address, basket.total, Ids(basket.products))
    }
  }
}
