/**
 The add/edit grocery form (src/components/AddGroceryForm.tsx): the fields it
 starts from, the checks `handleSubmit` makes, the grocery it hands to its
 caller and what it leaves in the fields afterwards.

 The form works in one of two modes, chosen by its caller: adding (no item
 being edited) or editing an existing `GroceryItem`.
 */
module GroceryForm {

  import opened Types
  import opened Text

  // ---------------------------------------------------------------- categories

  /** The categories the form's select offers, as a closed set. */
  datatype Category =
    | Fruits | Vegetables | Dairy | Meat | Seafood | Bakery
    | CannedGoods | FrozenFoods | PantryItems | Other

  /** The select's option values, in display order. */
  const Categories: seq<string> := [
    "Fruits", "Vegetables", "Dairy", "Meat", "Seafood", "Bakery",
    "Canned Goods", "Frozen Foods", "Pantry Items", "Other"
  ]

  /** The option value shown for a category. */
  function CategoryName(c: Category): (name: string)
    ensures name in Categories
  {
    match c
    case Fruits => "Fruits"
    case Vegetables => "Vegetables"
    case Dairy => "Dairy"
    case Meat => "Meat"
    case Seafood => "Seafood"
    case Bakery => "Bakery"
    case CannedGoods => "Canned Goods"
    case FrozenFoods => "Frozen Foods"
    case PantryItems => "Pantry Items"
    case Other => "Other"
  }

  /** The category an option value names; none for any other string. */
  function ParseCategory(name: string): (c: Option<Category>)
    ensures c.Some? <==> name in Categories
    ensures c.Some? ==> CategoryName(c.value) == name
  {
    if name == "Fruits" then Some(Fruits)
    else if name == "Vegetables" then Some(Vegetables)
    else if name == "Dairy" then Some(Dairy)
    else if name == "Meat" then Some(Meat)
    else if name == "Seafood" then Some(Seafood)
    else if name == "Bakery" then Some(Bakery)
    else if name == "Canned Goods" then Some(CannedGoods)
    else if name == "Frozen Foods" then Some(FrozenFoods)
    else if name == "Pantry Items" then Some(PantryItems)
    else if name == "Other" then Some(Other)
    else None
  }

  /** Every category reads back from its option value. */
  lemma CategoryRoundTrip(c: Category)
    ensures ParseCategory(CategoryName(c)) == Some(c)
  {
  }

  /** Ten distinct options, the last of them "Other". */
  lemma CategoriesShape()
    ensures |Categories| == 10
    ensures Categories[|Categories| - 1] == "Other"
    ensures forall i, j :: 0 <= i < j < |Categories| ==> Categories[i] != Categories[j]
  {
  }

  // ---------------------------------------------------------------- state

  /** The form's fields. A missing expiry date or category is `None`. */
  datatype Form = Form(
    name: string,
    expiryDate: Option<Instant>,
    quantity: int,
    category: Option<string>,
    notes: string
  )

  /** What the form hands to its caller: a grocery without an id. */
  datatype NewGrocery = NewGrocery(
    name: string,
    expiryDate: Instant,
    quantity: int,
    category: Option<string>,
    notes: Option<string>,
    reminderSet: bool
  )

  /** Why a submission was refused; the source shows each as an error toast. */
  datatype Rejection = MissingName | MissingExpiryDate

  datatype Outcome = Rejected(reason: Rejection) | Emitted(grocery: NewGrocery)

  /** The outcome of a submission and the fields the form holds afterwards. */
  datatype Submitted = Submitted(outcome: Outcome, form: Form)

  /**
   The fields a form starts with. Editing copies the item: a falsy quantity
   (zero) falls back to 1, a falsy name or notes to the empty string, and the
   expiry date (a `Date` object, always truthy) is copied as it is.
   */
  function InitialForm(editing: Option<GroceryItem>): (f: Form)
    ensures editing.None? ==>
              && f.name == "" && f.expiryDate.None? && f.quantity == 1
              && f.category.None? && f.notes == ""
    ensures editing.Some? ==>
              && f.name == editing.value.name
              && f.expiryDate == Some(editing.value.expiryDate)
              && f.category == editing.value.category
              && f.notes == editing.value.notes.GetOr("")
              && (f.quantity == editing.value.quantity || (editing.value.quantity == 0 && f.quantity == 1))
              && f.quantity != 0
  {
    var name := if editing.Some? && editing.value.name != "" then editing.value.name else "";
    var expiry := if editing.Some? then Some(editing.value.expiryDate) else None;
    var quantity := if editing.Some? && editing.value.quantity != 0 then editing.value.quantity else 1;
    var category := if editing.Some? then editing.value.category else None;
    var notes :=
      if editing.Some? && editing.value.notes.Some? && editing.value.notes.value != ""
      then editing.value.notes.value
      else "";
    Form(name, expiry, quantity, category, notes)
  }

  /** The fields a fresh add form holds, and what an accepted add leaves behind. */
  const BlankForm: Form := Form("", None, 1, None, "")

  /**
   `notes.trim() || undefined`: the notes without surrounding whitespace,
   absent when nothing but whitespace was typed.
   */
  function NotesPayload(notes: string): (n: Option<string>)
    ensures n.None? <==> AllWhitespace(notes)
    ensures n.Some? ==>
              && |n.value| > 0 && !IsWhitespace(n.value[0]) && !IsWhitespace(n.value[|n.value| - 1])
              && n.value == Trim(notes)
  {
    TrimEmptyIffBlank(notes);
    var trimmed := Trim(notes);
    if trimmed == "" then None else Some(trimmed)
  }

  /** `!name.trim()`: the name is missing when it trims to nothing. */
  function NameMissing(name: string): (missing: bool)
    ensures missing <==> AllWhitespace(name)
  {
    TrimEmptyIffBlank(name);
    Trim(name) == ""
  }

  /**
   `handleSubmit`. A name that trims to nothing is refused first, then a
   missing expiry date; otherwise the grocery is emitted with the name as
   typed, the notes trimmed (absent when nothing is left), and the reminder
   flag of the edited item (false when adding). Adding clears the fields back
   to a fresh form; editing leaves them as they are.
   */
  function Submit(f: Form, editing: Option<GroceryItem>): (r: Submitted)
    ensures r.outcome == Rejected(MissingName) <==> AllWhitespace(f.name)
    ensures r.outcome == Rejected(MissingExpiryDate) <==> !AllWhitespace(f.name) && f.expiryDate.None?
    ensures r.outcome.Rejected? ==> r.form == f
    ensures r.outcome.Emitted? ==>
              && r.outcome.grocery.name == f.name
              && f.expiryDate == Some(r.outcome.grocery.expiryDate)
              && r.outcome.grocery.quantity == f.quantity
              && r.outcome.grocery.category == f.category
              && r.outcome.grocery.notes == NotesPayload(f.notes)
    ensures r.outcome.Emitted? ==>
              (r.outcome.grocery.reminderSet <==> editing.Some? && editing.value.reminderSet == Some(true))
    ensures r.outcome.Emitted? ==> r.form == (if editing.None? then BlankForm else f)
  {
    if NameMissing(f.name) then Submitted(Rejected(MissingName), f)
    else if f.expiryDate.None? then Submitted(Rejected(MissingExpiryDate), f)
    else Submitted(Emitted(Payload(f, editing)), if editing.None? then BlankForm else f)
  }

  /** The grocery an accepted submission emits. */
  function Payload(f: Form, editing: Option<GroceryItem>): (g: NewGrocery)
    requires f.expiryDate.Some?
    ensures g.name == f.name && g.expiryDate == f.expiryDate.value
    ensures g.quantity == f.quantity && g.category == f.category
    ensures g.notes == NotesPayload(f.notes)
    ensures g.reminderSet <==> editing.Some? && editing.value.reminderSet == Some(true)
  {
    var reminderSet := editing.Some? && editing.value.reminderSet.GetOr(false);
    NewGrocery(f.name, f.expiryDate.value, f.quantity, f.category, NotesPayload(f.notes), reminderSet)
  }

  /** An accepted add leaves the form exactly as a fresh add form starts. */
  lemma AddResetsToInitial(f: Form)
    requires Submit(f, None).outcome.Emitted?
    ensures Submit(f, None).form == InitialForm(None)
  {
  }

  /**
   The grocery an edited item stands for once it is submitted again: for any
   item the form could have produced, exactly what opening it for editing and
   accepting the unchanged form emits, with an absent reminder flag read as
   false.
   */
  function Resubmitted(g: GroceryItem): (n: NewGrocery)
    requires !AllWhitespace(g.name)
    requires g.quantity != 0
    requires g.notes.Some? ==> g.notes.value != "" && Trim(g.notes.value) == g.notes.value
    ensures n == Payload(InitialForm(Some(g)), Some(g))
    ensures n.reminderSet <==> g.reminderSet == Some(true)
  {
    assert NotesPayload(InitialForm(Some(g)).notes) == g.notes;
    NewGrocery(g.name, g.expiryDate, g.quantity, g.category, g.notes, g.reminderSet == Some(true))
  }

  /**
   Opening an item for editing and submitting without touching a field
   re-emits that item and leaves the form as it was, provided the item is one
   the form could have produced: a non-blank name, a non-zero quantity and
   notes that are absent or already trimmed and non-empty.
   */
  lemma EditRoundTrip(g: GroceryItem)
    requires !AllWhitespace(g.name)
    requires g.quantity != 0
    requires g.notes.Some? ==> g.notes.value != "" && Trim(g.notes.value) == g.notes.value
    ensures Submit(InitialForm(Some(g)), Some(g))
         == Submitted(Emitted(Resubmitted(g)), InitialForm(Some(g)))
  {
    var f := InitialForm(Some(g));
    assert NotesPayload(f.notes) == g.notes;
  }

  /** Notes that went through the form once come through a second time unchanged. */
  lemma NotesPayloadIdempotent(notes: string)
    ensures NotesPayload(NotesPayload(notes).GetOr("")) == NotesPayload(notes)
  {
    if NotesPayload(notes).Some? {
      TrimIdempotent(notes);
    }
  }

  /**
   Every grocery the form emits with a non-zero quantity can be opened for
   editing again and, submitted unchanged, comes back as itself.
   */
  lemma EmittedRoundTrip(f: Form, editing: Option<GroceryItem>, id: string)
    requires Submit(f, editing).outcome.Emitted?
    requires f.quantity != 0
    ensures
      var n := Submit(f, editing).outcome.grocery;
      var g := GroceryItem(id, n.name, n.expiryDate, n.quantity, n.category, n.notes, Some(n.reminderSet));
      Submit(InitialForm(Some(g)), Some(g)).outcome == Emitted(n)
  {
    var n := Payload(f, editing);
    var g := GroceryItem(id, n.name, n.expiryDate, n.quantity, n.category, n.notes, Some(n.reminderSet));
    var e := InitialForm(Some(g));
    NotesPayloadIdempotent(f.notes);
    assert !NameMissing(e.name) && e.expiryDate.Some?;
    assert Payload(e, Some(g)) == n;
  }

  /**
   A grocery saved with quantity 0 (the quantity field is never validated)
   reopens for editing with quantity 1, so submitting it unchanged changes its
   quantity.
   */
  lemma ZeroQuantityReopensAsOne(g: GroceryItem)
    requires g.quantity == 0
    requires !AllWhitespace(g.name)
    ensures Submit(InitialForm(Some(g)), Some(g)).outcome.grocery.quantity == 1
  {
  }

  /** An edit form can be submitted again and emits the same grocery. */
  lemma EditResubmitStable(f: Form, g: GroceryItem)
    ensures Submit(Submit(f, Some(g)).form, Some(g)) == Submit(f, Some(g))
  {
  }
}
