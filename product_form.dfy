/**
 * The add/edit product dialog: the form record, the per-field error
 * messages, and the two buttons that close the dialog. The form record
 * holds name, category, description, cost, selling price and notes, but
 * no SKU, which the schema requires.
 */
module ProductForm {
  import opened Wrappers
  import opened ProductSchema

  const FormFields: set<string> := {"name", "category", "description", "cost", "sellingPrice", "notes"}

  /** The starting record: each field from the product being edited when it
      has a non-empty value there, otherwise empty. */
  function InitialForm(product: Option<map<string, string>>): (r: Form)
    ensures r.Keys == FormFields
    ensures product.None? ==> forall k :: k in r ==> r[k] == ""
  {
    map k | k in FormFields ::
      if product.Some? && k in product.value then product.value[k] else ""
  }

  /** The error messages `forEach` collects: each issue's message under its
      path, a later issue overwriting an earlier one at the same path. */
  function ErrorsOf(issues: seq<Issue>): map<string, string>
    decreases |issues|
  {
    if issues == [] then map[]
    else ErrorsOf(issues[..|issues| - 1])[issues[|issues| - 1].path := issues[|issues| - 1].message]
  }

  /** A path gets a message exactly when some issue is at that path. */
  lemma {:induction false} ErrorsOfKeys(issues: seq<Issue>)
    ensures forall p :: p in ErrorsOf(issues) <==> exists i :: 0 <= i < |issues| && issues[i].path == p
    decreases |issues|
  {
    if issues != [] {
      var n := |issues| - 1;
      var init := issues[..n];
      ErrorsOfKeys(init);
      assert ErrorsOf(issues) == ErrorsOf(init)[issues[n].path := issues[n].message];
      forall p | p in ErrorsOf(issues) ensures exists i :: 0 <= i < |issues| && issues[i].path == p {
        if p != issues[n].path {
          var i :| 0 <= i < |init| && init[i].path == p;
          assert issues[i] == init[i];
        }
      }
      forall p | (exists i :: 0 <= i < |issues| && issues[i].path == p) ensures p in ErrorsOf(issues) {
        var i :| 0 <= i < |issues| && issues[i].path == p;
        if i < n {
          assert init[i] == issues[i];
        }
      }
    }
  }

  /** Each path with an issue gets the message of the last issue at that
      path, and no other path gets a message. */
  lemma {:induction false} ErrorsOfLastWins(issues: seq<Issue>)
    ensures forall p :: p in ErrorsOf(issues) <==> exists i :: 0 <= i < |issues| && issues[i].path == p
    ensures forall j :: 0 <= j < |issues| && (forall i :: j < i < |issues| ==> issues[i].path != issues[j].path) ==>
              ErrorsOf(issues)[issues[j].path] == issues[j].message
    decreases |issues|
  {
    ErrorsOfKeys(issues);
    if issues != [] {
      var n := |issues| - 1;
      var init := issues[..n];
      ErrorsOfLastWins(init);
      forall j | 0 <= j < |issues| && (forall i :: j < i < |issues| ==> issues[i].path != issues[j].path)
        ensures ErrorsOf(issues)[issues[j].path] == issues[j].message
      {
        if j < n {
          assert init[j] == issues[j];
          forall i | j < i < |init| ensures init[i].path != init[j].path {
            assert init[i] == issues[i];
          }
        }
      }
    }
  }

  /** The `forEach` over the issues, one assignment per issue. */
  method CollectErrors(issues: seq<Issue>) returns (collected: map<string, string>)
    ensures collected == ErrorsOf(issues)
  {
    collected := map[];
    var i := 0;
    while i < |issues|
      invariant 0 <= i <= |issues|
      invariant collected == ErrorsOf(issues[..i])
    {
      assert issues[..i + 1][..i] == issues[..i];
      collected := collected[issues[i].path := issues[i].message];
      i := i + 1;
    }
    assert issues[..|issues|] == issues;
  }

  class Dialog {
    var formData: Form
    var errors: map<string, string>
    /** How many times the dialog has asked to be closed. */
    var closeRequests: nat

    ghost predicate Valid()
      reads this
    {
      formData.Keys == FormFields
    }

    constructor (product: Option<map<string, string>>)
      ensures Valid()
      ensures formData == InitialForm(product) && errors == map[] && closeRequests == 0
    {
      formData := InitialForm(product);
      errors := map[];
      closeRequests := 0;
    }

    /** `handleChange`, as the inputs call it: one field takes the new
        value, and that field's error, when it is a non-empty message, is
        dropped; every other field and error is kept. */
    method HandleChange(field: string, value: string)
      requires Valid() && field in FormFields
      modifies this`formData, this`errors
      ensures Valid()
      ensures formData == old(formData)[field := value]
      ensures field in old(errors) && old(errors)[field] != "" ==> errors == old(errors) - {field}
      ensures !(field in old(errors) && old(errors)[field] != "") ==> errors == old(errors)
    {
      formData := formData[field := value];
      if field in errors && errors[field] != "" {
        errors := errors - {field};
      }
    }

    /** `validateForm`: an accepted record clears the errors; otherwise the
        errors are rebuilt from the issues, one per path. */
    method ValidateForm() returns (ok: bool)
      modifies this`errors
      ensures ok <==> Accepts(formData)
      ensures ok ==> errors == map[]
      ensures !ok ==> errors == ErrorsOf(Issues(formData))
    {
      var issues := Issues(formData);
      IssuesMatchRules(formData);
      if issues == [] {
        errors := map[];
        return true;
      }
      errors := CollectErrors(issues);
      return false;
    }

    /** `handleSave`: closes only after a successful validation. */
    method HandleSave()
      modifies this`errors, this`closeRequests
      ensures Accepts(formData) ==> closeRequests == old(closeRequests) + 1 && errors == map[]
      ensures !Accepts(formData) ==> closeRequests == old(closeRequests) && errors == ErrorsOf(Issues(formData))
    {
      var ok := ValidateForm();
      if ok {
        closeRequests := closeRequests + 1;
      }
    }

    /** `handleDraft`: closes without validating. */
    method HandleDraft()
      modifies this`closeRequests
      ensures closeRequests == old(closeRequests) + 1
    {
      closeRequests := closeRequests + 1;
    }
  }

  /** The record never has a SKU, so Save never closes the dialog and always
      shows "Required" under `sku`. */
  method SaveNeverCloses(d: Dialog)
    requires d.Valid()
    modifies d`errors, d`closeRequests
    ensures d.closeRequests == old(d.closeRequests)
    ensures "sku" in d.errors && d.errors["sku"] == "Required"
  {
    MissingSkuRefused(d.formData);
    d.HandleSave();
    ghost var issues := Issues(d.formData);
    ErrorsOfLastWins(issues);
    ghost var j :| 0 <= j < |issues| && issues[j] == Issue("sku", "Required");
    forall i | j < i < |issues| ensures issues[i].path != "sku" {
      SkuIssueIsOnlyOne(d.formData, i, j);
    }
  }

  /** Without `sku` in the record, the only issue at `sku` is "Required". */
  lemma SkuIssueIsOnlyOne(form: Form, i: nat, j: nat)
    requires "sku" !in form && i < |Issues(form)| && j < |Issues(form)|
    requires Issues(form)[j] == Issue("sku", "Required") && i != j
    ensures Issues(form)[i].path != "sku"
  {
    var a := NameIssues(form);
    var rest := CategoryIssues(form) + CostIssues(form) + SellingPriceIssues(form);
    var all := a + [Issue("sku", "Required")] + rest;
    assert Issues(form) == all;
    IssuesMatchRules(form);
    forall k | 0 <= k < |all| && k != |a| ensures all[k].path != "sku" {
      if k < |a| {
        assert all[k] == a[k];
      } else {
        assert all[k] == rest[k - |a| - 1];
        RestPaths(form, k - |a| - 1);
      }
    }
  }

  lemma RestPaths(form: Form, k: nat)
    requires k < |CategoryIssues(form) + CostIssues(form) + SellingPriceIssues(form)|
    ensures (CategoryIssues(form) + CostIssues(form) + SellingPriceIssues(form))[k].path != "sku"
  {
    var c := CategoryIssues(form);
    var d := CostIssues(form);
    var e := SellingPriceIssues(form);
    if k < |c| {
      assert (c + d + e)[k] == c[k];
    } else if k < |c| + |d| {
      assert (c + d + e)[k] == d[k - |c|];
    } else {
      assert (c + d + e)[k] == e[k - |c| - |d|];
    }
  }
}
