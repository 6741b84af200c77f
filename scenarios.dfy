/** Walk-throughs of the order portal, stated as clients of `OrderStore` that see only its contracts. */
module Scenarios {
  import opened Wrappers
  import opened OrderList
  import opened OrderForm
  import opened OrderApp

  /** A stored token shows the portal; a wrapped body without `orders` loads the empty list. */
  method LoadScenario() {
    var store := new OrderStore(Some("t0k3n"));
    assert store.ShowsMainView();
    store.LoadOrders(Returned(Obj(None)));
    assert store.orders == [];
  }

  /** Create "Widget" x 3 at priority "high". */
  method SubmitScenario() {
    var store := new OrderStore(None);
    var form := FormInput("Widget", Some(3), "high", "");
    var w := Order("1", "Widget", 3, "high", Some(""));
    assert !IsJsSpace(form.productName[0]);
    var sent := store.SubmitForm(form, Returned(w));
    assert sent.Some? && sent.value.quantity == 3 && sent.value.priority == "high";
    assert store.orders == [w];

  }

  /** A quantity that does not parse sends nothing and leaves the list alone. */
  method RejectScenario(form: FormInput) {
    var store := new OrderStore(None);
    var sent := store.SubmitForm(form.(quantity := None), Threw);
    assert sent == None && store.orders == [];
  }

  /** Save a priority edit, fail a message edit, delete the order and log out. */
  method EditScenario() {
    var store := new OrderStore(Some("t0k3n"));
    var w := Order("1", "Widget", 3, "low", Some(""));
    store.AddOrder(Returned(w));

    store.StartPriorityEdit(w);
    store.ChangePriorityDraft("high");
    store.UpdatePriority("1", Returned(()));
    assert store.orders == [w.(priority := "high")];
    assert store.editingPriorityId == None && store.newPriority == "";

    store.StartMessageEdit(store.orders[0]);
    assert store.newMessage == "";
    store.ChangeMessageDraft("urgent");
    store.UpdateMessage("1", Threw);
    assert store.editingMessageId == Some("1") && store.newMessage == "urgent";
    assert store.orders == [w.(priority := "high")];

    store.DeleteOrder("1", Returned(()));
    assert store.orders == [];
    store.Logout();
    assert store.token == "" && !store.ShowsMainView();
  }
}
