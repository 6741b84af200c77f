/**
 * The state of the `App` component (src/App.js) and its event handlers.
 * Each `useState` hook is a field; each handler is a method that performs
 * the handler's setter calls as one atomic step. A network exchange is a
 * parameter: `Threw` takes the handler's `catch` path, `Returned` the rest
 * of its `try` block, whatever the HTTP status.
 */
module OrderApp {
  import opened Wrappers
  import opened OrderList
  import opened OrderForm

  /** The inline editors' state: which order each editor is open on, and its draft value. */
  datatype Drafts = Drafts(
    editingPriorityId: Option<Id>,
    editingMessageId: Option<Id>,
    newPriority: string,
    newMessage: string)

  /**
   * JavaScript truthiness of an optional string: missing, `null` and `""`
   * are falsy, so `s || ""` is the string itself or `""`.
   */
  predicate Truthy(s: Option<string>)
    ensures Truthy(s) <==> s.GetOr("") != ""
    ensures (if Truthy(s) then s.value else "") == s.GetOr("")
  {
    s.Some? && s.value != ""
  }

  class OrderStore {
    var token: string
    var orders: seq<Order>
    var editingPriorityId: Option<Id>
    var editingMessageId: Option<Id>
    var newPriority: string
    var newMessage: string

    /** The four editor fields taken together. */
    function EditState(): Drafts
      reads this
    {
      Drafts(editingPriorityId, editingMessageId, newPriority, newMessage)
    }

    /** The route `/` shows the order portal, not a redirect to `/login`, when the token is truthy. */
    predicate ShowsMainView()
      reads this
      ensures ShowsMainView() <==> |token| > 0
    {
      Truthy(Some(token))
    }

    /**
     * The initial state: `localStorage.getItem("token") || ""` (`stored` is
     * `None` when the key is absent), an empty list and both editors closed.
     */
    constructor (stored: Option<string>)
      ensures token == stored.GetOr("") && orders == []
      ensures EditState() == Drafts(None, None, "", "")
    {
      token := stored.GetOr("");
      orders := [];
      editingPriorityId, editingMessageId := None, None;
      newPriority, newMessage := "", "";
    }

    /** `setToken`, as handed to the login view. */
    method SetToken(t: string)
      modifies this
      ensures token == t
      ensures orders == old(orders) && EditState() == old(EditState())
    {
      token := t;
    }

    /**
     * The effect run when `token` changes: `fetchOrders(token)` when the
     * token is non-empty. A parsed body replaces the list after
     * normalisation; a throw, including the one a `null` body raises at
     * `data.orders`, leaves it as it was.
     */
    method LoadOrders(outcome: Exchange<ListResponse>)
      modifies this
      ensures token == old(token) && EditState() == old(EditState())
      ensures orders ==
        if old(token) != "" && outcome.Returned? && Normalise(outcome.body).Some?
        then Normalise(outcome.body).value
        else old(orders)
    {
      if token != "" {
        match outcome
        case Threw =>
        case Returned(data) =>
          var r := Normalise(data);
          if r.Some? {
            orders := r.value;
          }
      }
    }

    /** `logout`: forget the token and empty the list; the editors are left as they are. */
    method Logout()
      modifies this
      ensures token == "" && orders == [] && !ShowsMainView()
      ensures EditState() == old(EditState())
    {
      token := "";
      orders := [];
    }

    /** `addOrder`: append whatever body the `POST` returned. */
    method AddOrder(outcome: Exchange<Order>)
      modifies this
      ensures token == old(token) && EditState() == old(EditState())
      ensures orders == if outcome.Returned? then old(orders) + [outcome.body] else old(orders)
      ensures outcome.Returned? ==>
        && |orders| == |old(orders)| + 1
        && orders[..|old(orders)|] == old(orders)
        && orders[|old(orders)|] == outcome.body
    {
      match outcome
      case Threw =>
      case Returned(newOrder) =>
        orders := orders + [newOrder];
    }

    /** `deleteOrder(id)`: drop every entry with that `_id` once the `DELETE` has returned. */
    method DeleteOrder(id: Id, outcome: Exchange<()>)
      modifies this
      ensures token == old(token) && EditState() == old(EditState())
      ensures orders == if outcome.Returned? then RemoveId(old(orders), id) else old(orders)
    {
      if outcome.Returned? {
        orders := RemoveId(orders, id);
      }
    }

    /**
     * `updatePriority(id)`: once the `PATCH` has returned, every entry with
     * that `_id` takes the draft priority and the priority editor closes
     * with an empty draft. On a throw nothing changes: the editor stays open.
     */
    method UpdatePriority(id: Id, outcome: Exchange<()>)
      modifies this
      ensures token == old(token)
      ensures outcome.Threw? ==> orders == old(orders) && EditState() == old(EditState())
      ensures outcome.Returned? ==>
        && orders == Patch(old(orders), id, SetPriority(old(newPriority)))
        && EditState() == old(EditState()).(editingPriorityId := None, newPriority := "")
    {
      if outcome.Returned? {
        orders := Patch(orders, id, SetPriority(newPriority));
        editingPriorityId := None;
        newPriority := "";
      }
    }

    /** `updateMessage(id)`: as `UpdatePriority`, for the `message` field and its editor. */
    method UpdateMessage(id: Id, outcome: Exchange<()>)
      modifies this
      ensures token == old(token)
      ensures outcome.Threw? ==> orders == old(orders) && EditState() == old(EditState())
      ensures outcome.Returned? ==>
        && orders == Patch(old(orders), id, SetMessage(old(newMessage)))
        && EditState() == old(EditState()).(editingMessageId := None, newMessage := "")
    {
      if outcome.Returned? {
        orders := Patch(orders, id, SetMessage(newMessage));
        editingMessageId := None;
        newMessage := "";
      }
    }

    /** The priority "Edit" button of a rendered order: open the editor seeded with its priority. */
    method StartPriorityEdit(order: Order)
      modifies this
      ensures token == old(token) && orders == old(orders)
      ensures EditState() ==
        old(EditState()).(editingPriorityId := Some(order.id), newPriority := order.priority)
    {
      editingPriorityId := Some(order.id);
      newPriority := order.priority;
    }

    /** The priority "Cancel" button: close the editor and keep the draft. */
    method CancelPriorityEdit()
      modifies this
      ensures token == old(token) && orders == old(orders)
      ensures EditState() == old(EditState()).(editingPriorityId := None)
    {
      editingPriorityId := None;
    }

    /** The priority `<select>`'s `onChange`: replace the draft. */
    method ChangePriorityDraft(value: string)
      modifies this
      ensures token == old(token) && orders == old(orders)
      ensures EditState() == old(EditState()).(newPriority := value)
    {
      newPriority := value;
    }

    /**
     * The message "Edit" button of a rendered order: open the editor seeded
     * with its message, `""` when that is falsy.
     */
    method StartMessageEdit(order: Order)
      modifies this
      ensures token == old(token) && orders == old(orders)
      ensures editingMessageId == Some(order.id)
      ensures newMessage == if Truthy(order.message) then order.message.value else ""
      ensures editingPriorityId == old(editingPriorityId) && newPriority == old(newPriority)
    {
      editingMessageId := Some(order.id);
      newMessage := order.message.GetOr("");
    }

    /** The message "Cancel" button: close the editor and keep the draft. */
    method CancelMessageEdit()
      modifies this
      ensures token == old(token) && orders == old(orders)
      ensures EditState() == old(EditState()).(editingMessageId := None)
    {
      editingMessageId := None;
    }

    /** The message `<textarea>`'s `onChange`: replace the draft. */
    method ChangeMessageDraft(value: string)
      modifies this
      ensures token == old(token) && orders == old(orders)
      ensures EditState() == old(EditState()).(newMessage := value)
    {
      newMessage := value;
    }

    /**
     * The form's `onSubmit`: when the guard passes, dispatch `addOrder` with
     * the trimmed fields; otherwise do nothing. `request` is what was sent.
     * The form's field values are not state of this class: `request.Some?`
     * marks both the dispatch and the form reset that follows it, which
     * happens before and regardless of the exchange's outcome.
     */
    method SubmitForm(form: FormInput, outcome: Exchange<Order>) returns (request: Option<OrderRequest>)
      modifies this
      ensures request == SubmitGuard(form)
      ensures request.None? ==> orders == old(orders)
      ensures token == old(token) && EditState() == old(EditState())
      ensures orders ==
        if request.Some? && outcome.Returned? then old(orders) + [outcome.body] else old(orders)
    {
      request := SubmitGuard(form);
      if request.Some? {
        AddOrder(outcome);
      }
    }
  }
}
