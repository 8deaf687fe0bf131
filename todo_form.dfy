/** The task entry form (components/TodoForm.tsx): the title being typed, the
    chosen priority and the chosen category. Submitting hands a draft to the
    app's `addTodo`. */
module TodoForm {
  import opened Wrappers
  import opened Types
  import opened Strings

  /** The arguments `onAdd` is called with. */
  datatype Draft = Draft(title: string, priority: Priority, category: string)

  /** The options of the category selector, in order. */
  const CategoryOptions: seq<string> := ["Personal", "Work", "Shopping", "Health", "Finance"]

  /** The priority buttons, in order. */
  const PriorityOptions: seq<Priority> := [Low, Medium, High]

  class FormState {
    var title: string
    var priority: Priority
    var category: string

    /** The category is always one the selector offers. */
    ghost predicate Valid()
      reads this
    {
      category in CategoryOptions
    }

    /** Empty title, medium priority, "Personal". */
    constructor ()
      ensures Valid()
      ensures title == "" && priority == Medium && category == "Personal"
    {
      title := "";
      priority := Medium;
      category := "Personal";
    }

    /** Typing in the title field. */
    method ChangeTitle(value: string)
      modifies this`title
      ensures title == value
    {
      title := value;
    }

    /** Picking an option of the category selector. */
    method ChooseCategory(k: nat)
      requires k < |CategoryOptions|
      modifies this`category
      ensures Valid() && category == CategoryOptions[k]
    {
      category := CategoryOptions[k];
    }

    /** Pressing one of the priority buttons; there is one button for each of
        the three priorities, so every priority can be chosen. */
    method ChoosePriority(k: nat)
      requires k < |PriorityOptions|
      modifies this`priority
      ensures priority == PriorityOptions[k]
    {
      priority := PriorityOptions[k];
    }

    /** `handleSubmit`: a title made only of whitespace is rejected, with no
        call and no change. Otherwise `onAdd` is called once with the title as
        typed (untrimmed) and the current priority and category, and only the
        title is cleared. */
    method HandleSubmit() returns (added: Option<Draft>)
      requires Valid()
      modifies this`title
      ensures Valid() && priority == old(priority) && category == old(category)
      ensures AllWhitespace(old(title)) ==> added == None && title == old(title)
      ensures !AllWhitespace(old(title)) ==>
        added == Some(Draft(old(title), priority, category)) && title == ""
    {
      TrimEmptyIffAllWhitespace(title);
      if Trim(title) == "" {
        added := None;
        return;
      }
      added := Some(Draft(title, priority, category));
      title := "";
    }
  }

  /** A title of spaces submits nothing; a padded title is forwarded as
      typed, padding included. */
  method SubmitExamples()
  {
    var form := new FormState();
    form.ChangeTitle("   ");
    var none := form.HandleSubmit();
    assert none == None && form.title == "   ";
    form.ChooseCategory(1);
    form.ChoosePriority(2);
    form.ChangeTitle(" Buy milk ");
    assert !AllWhitespace(form.title) by { assert !IsWhitespace(form.title[1]); }
    var some := form.HandleSubmit();
    assert some == Some(Draft(" Buy milk ", High, "Work")) && form.title == "";
  }
}
