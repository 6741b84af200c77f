/**
 * The "Submit New Order" form of `App` (src/App.js): ECMAScript's
 * `String.prototype.trim` and the guard that decides whether a submit
 * dispatches `addOrder`.
 */
module OrderForm {
  import opened Wrappers

  /**
   * The characters `trim` strips: ECMAScript's WhiteSpace (tab, vertical
   * tab, form feed, no-break space, byte order mark and every space
   * separator of Unicode category Zs) and LineTerminator (line feed,
   * carriage return, line and paragraph separators).
   */
  predicate IsJsSpace(c: char)
    ensures c < '\U{0080}' ==> (IsJsSpace(c) <==>
      c == ' ' || c == '\t' || c == '\n' || c == '\r' || c == '\U{000B}' || c == '\U{000C}')
    ensures c == '\U{200B}' ==> !IsJsSpace(c)
  {
    || c == '\t' || c == '\U{000B}' || c == '\U{000C}' || c == ' '
    || c == '\U{00A0}' || c == '\U{FEFF}' || c == '\U{1680}'
    || ('\U{2000}' <= c <= '\U{200A}')
    || c == '\U{202F}' || c == '\U{205F}' || c == '\U{3000}'
    || c == '\n' || c == '\r' || c == '\U{2028}' || c == '\U{2029}'
  }

  /** `s` holds a character that `trim` keeps. */
  predicate HasVisibleChar(s: string) {
    exists i :: 0 <= i < |s| && !IsJsSpace(s[i])
  }

  /** Every character of `s` is white space. */
  predicate AllSpace(s: string) {
    forall i :: 0 <= i < |s| ==> IsJsSpace(s[i])
  }

  /** The first index at or after `i` whose character is not white space, or `|s|`. */
  function SkipSpace(s: string, i: nat): (k: nat)
    requires i <= |s|
    ensures i <= k <= |s|
    ensures forall j :: i <= j < k ==> IsJsSpace(s[j])
    ensures k < |s| ==> !IsJsSpace(s[k])
    decreases |s| - i
  {
    if i < |s| && IsJsSpace(s[i]) then SkipSpace(s, i + 1) else i
  }

  /** The end of `s[..j]` once its trailing white space is dropped. */
  function SkipSpaceBack(s: string, j: nat): (k: nat)
    requires j <= |s|
    ensures k <= j
    ensures forall m :: k <= m < j ==> IsJsSpace(s[m])
    ensures k > 0 ==> !IsJsSpace(s[k - 1])
  {
    if j > 0 && IsJsSpace(s[j - 1]) then SkipSpaceBack(s, j - 1) else j
  }

  /** `s` with its leading white space removed. */
  function TrimStart(s: string): (r: string)
    ensures |r| <= |s| && r == s[|s| - |r|..] && AllSpace(s[..|s| - |r|])
    ensures r != [] ==> !IsJsSpace(r[0])
  {
    s[SkipSpace(s, 0)..]
  }

  /** `s` with its trailing white space removed. */
  function TrimEnd(s: string): (r: string)
    ensures |r| <= |s| && r == s[..|r|] && AllSpace(s[|r|..])
    ensures r != [] ==> !IsJsSpace(r[|r| - 1])
  {
    var k := SkipSpaceBack(s, |s|);
    var tail := s[k..];
    assert forall m :: 0 <= m < |tail| ==> tail[m] == s[k + m];
    s[..k]
  }

  /**
   * `s.trim()`: neither end of the result is white space. `TrimIsMiddle`
   * adds that the result is a slice of `s` with only white space cut off.
   */
  function Trim(s: string): (r: string)
    ensures |r| <= |s|
    ensures r != [] ==> !IsJsSpace(r[0]) && !IsJsSpace(r[|r| - 1])
  {
    var t := TrimStart(s);
    var r := TrimEnd(t);
    assert r != [] ==> r[0] == t[0];
    r
  }

  /** `trim` cuts white space, and only white space, off both ends of `s`. */
  lemma TrimIsMiddle(s: string)
    ensures exists a, b :: 0 <= a <= b <= |s| && Trim(s) == s[a..b] && AllSpace(s[..a]) && AllSpace(s[b..])
  {
    var a := SkipSpace(s, 0);
    var t := s[a..];
    var n := SkipSpaceBack(t, |t|);
    assert Trim(s) == s[a..a + n];
    var tail := s[a + n..];
    forall m | 0 <= m < |tail| ensures IsJsSpace(tail[m]) {
      assert tail[m] == t[n + m];
    }
  }

  /** The trimmed string is empty exactly when every character of the input is white space. */
  lemma TrimEmptyIff(s: string)
    ensures Trim(s) == [] <==> !HasVisibleChar(s)
  {
    var a := SkipSpace(s, 0);
    var t := s[a..];
    var n := SkipSpaceBack(t, |t|);
    assert Trim(s) == t[..n];
    if HasVisibleChar(s) {
      var i :| 0 <= i < |s| && !IsJsSpace(s[i]);
      assert t[i - a] == s[i];
    }
    if n > 0 {
      assert t[0] == s[a];
    }
  }

  /** Trimming twice is trimming once. */
  lemma TrimIdempotent(s: string)
    ensures Trim(Trim(s)) == Trim(s)
  {
    var r := Trim(s);
    if r != [] {
      assert SkipSpace(r, 0) == 0;
      assert TrimStart(r) == r;
      assert SkipSpaceBack(r, |r|) == |r|;
    }
  }

  /** The raw field values read from the form when it is submitted. */
  datatype FormInput = FormInput(
    productName: string,
    quantity: Option<int>,  // `parseInt(...)`; `None` stands for `NaN`
    priority: string,
    message: string)

  /** The arguments `addOrder` is called with, which become the body of `POST /orders`. */
  datatype OrderRequest = OrderRequest(
    productName: string,
    quantity: int,
    priority: string,
    message: string)

  /**
   * `if (productName && quantity > 0) addOrder(...)`: the request the submit
   * dispatches, or `None` when the guard fails and nothing is sent.
   */
  function SubmitGuard(form: FormInput): (r: Option<OrderRequest>)
    ensures r.Some? <==>
      HasVisibleChar(form.productName) && form.quantity.Some? && form.quantity.value > 0
    ensures r.Some? ==>
      && r.value.productName == Trim(form.productName) != []
      && r.value.quantity == form.quantity.value > 0
      && r.value.priority == form.priority
      && r.value.message == Trim(form.message)
  {
    TrimEmptyIff(form.productName);
    var name := Trim(form.productName);
    if name != [] && form.quantity.Some? && form.quantity.value > 0 then
      Some(OrderRequest(name, form.quantity.value, form.priority, Trim(form.message)))
    else
      None
  }
}
