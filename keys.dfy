/** Placeholder names the capture extension invents for an input it has no known value
    for: `sanitizeKey` and `inferKeyName`. */
module KeyNames {
  import opened Wrappers

  /** JavaScript white space and line terminators: what `trim` removes and `\s`
      matches. */
  predicate IsJsSpace(c: char) {
    c == '\t' || c == '\n' || c == '\U{B}' || c == '\U{C}' || c == '\r' || c == ' '
    || c == '\U{A0}' || c == '\U{1680}' || ('\U{2000}' <= c <= '\U{200A}')
    || c == '\U{2028}' || c == '\U{2029}' || c == '\U{202F}' || c == '\U{205F}'
    || c == '\U{3000}' || c == '\U{FEFF}'
  }

  predicate IsUpper(c: char) {
    'A' <= c <= 'Z'
  }

  /** `\w` without the `u` flag. */
  predicate IsWord(c: char) {
    ('a' <= c <= 'z') || IsUpper(c) || ('0' <= c <= '9') || c == '_'
  }

  /** A character a sanitized key may hold: a lowercase letter, a digit or `_`. */
  predicate IsKeyChar(c: char) {
    ('a' <= c <= 'z') || ('0' <= c <= '9') || c == '_'
  }

  predicate IsKeyText(s: string) {
    forall i :: 0 <= i < |s| ==> IsKeyChar(s[i])
  }

  function TrimStart(s: string): (r: string)
    ensures |r| <= |s| && (r == [] || !IsJsSpace(r[0]))
    decreases |s|
  {
    if s != [] && IsJsSpace(s[0]) then TrimStart(s[1..]) else s
  }

  function TrimEnd(s: string): (r: string)
    ensures |r| <= |s| && (r == [] || !IsJsSpace(r[|r| - 1]))
    decreases |s|
  {
    if s != [] && IsJsSpace(s[|s| - 1]) then TrimEnd(s[..|s| - 1]) else s
  }

  /** `text.trim()`. */
  function Trim(s: string): string {
    TrimEnd(TrimStart(s))
  }

  /** The lowercase form of one character as far as it can survive the last step of
      `sanitizeKey`: ASCII capitals, U+0130 (whose lowercase is `i` followed by a
      combining dot) and the Kelvin sign U+212A (whose lowercase is `k`). Every other
      character either is its own lowercase for this purpose or lowercases to a
      character that is neither white space nor a word character. */
  function LowerChar(c: char): (r: string)
    ensures forall i :: 0 <= i < |r| ==> !IsUpper(r[i])
    ensures IsKeyChar(c) ==> r == [c]
    ensures IsJsSpace(c) ==> r == [c]
  {
    if IsUpper(c) then [(c as int + 32) as char]
    else if c == '\U{130}' then ['i', '\U{307}']
    else if c == '\U{212A}' then ['k']
    else [c]
  }

  /** `s.toLowerCase()`. */
  function Lower(s: string): (r: string)
    ensures forall i :: 0 <= i < |r| ==> !IsUpper(r[i])
    decreases |s|
  {
    if s == [] then [] else LowerChar(s[0]) + Lower(s[1..])
  }

  function DropSpaces(s: string): (r: string)
    ensures |r| <= |s|
    ensures (forall i :: 0 <= i < |s| ==> !IsUpper(s[i])) ==> forall i :: 0 <= i < |r| ==> !IsUpper(r[i])
    decreases |s|
  {
    if s != [] && IsJsSpace(s[0]) then DropSpaces(s[1..]) else s
  }

  /** `s.replace(/\s+/g, "_")`: every maximal run of white space becomes one `_`. */
  function CollapseSpaces(s: string): (r: string)
    ensures (forall i :: 0 <= i < |s| ==> !IsUpper(s[i])) ==> forall i :: 0 <= i < |r| ==> !IsUpper(r[i])
    decreases |s|
  {
    if s == [] then []
    else if IsJsSpace(s[0]) then "_" + CollapseSpaces(DropSpaces(s[1..]))
    else [s[0]] + CollapseSpaces(s[1..])
  }

  /** `s.replace(/[^\w]/g, "")`. */
  function KeepWord(s: string): (r: string)
    ensures forall i :: 0 <= i < |r| ==> IsWord(r[i])
    ensures (forall i :: 0 <= i < |s| ==> !IsUpper(s[i])) ==> forall i :: 0 <= i < |r| ==> !IsUpper(r[i])
    decreases |s|
  {
    if s == [] then []
    else if IsWord(s[0]) then [s[0]] + KeepWord(s[1..])
    else KeepWord(s[1..])
  }

  /** `sanitizeKey(text)`. */
  function SanitizeKey(text: string): (r: string)
    ensures IsKeyText(r)
  {
    KeepWord(CollapseSpaces(Lower(Trim(text))))
  }

  // The steps leave key text alone.

  lemma {:induction false} TrimStartKey(s: string)
    requires IsKeyText(s)
    ensures TrimStart(s) == s
  {
  }

  lemma TrimKey(s: string)
    requires IsKeyText(s)
    ensures Trim(s) == s
  {
    TrimStartKey(s);
  }

  lemma {:induction false} LowerKey(s: string)
    requires IsKeyText(s)
    ensures Lower(s) == s
    decreases |s|
  {
    if s != [] {
      LowerKey(s[1..]);
    }
  }

  lemma {:induction false} CollapseKey(s: string)
    requires IsKeyText(s)
    ensures CollapseSpaces(s) == s
    decreases |s|
  {
    if s != [] {
      CollapseKey(s[1..]);
    }
  }

  lemma {:induction false} KeepWordKey(s: string)
    requires IsKeyText(s)
    ensures KeepWord(s) == s
    decreases |s|
  {
    if s != [] {
      KeepWordKey(s[1..]);
    }
  }

  /** `sanitizeKey` returns text it leaves unchanged. */
  lemma SanitizeIdempotent(text: string)
    ensures SanitizeKey(SanitizeKey(text)) == SanitizeKey(text)
  {
    var s := SanitizeKey(text);
    TrimKey(s);
    LowerKey(s);
    CollapseKey(s);
    KeepWordKey(s);
  }

  /** A JavaScript string value is true when it is present and not empty. */
  predicate Given(s: Option<string>) {
    s.Some? && s.value != ""
  }

  /** `inferKeyName(el)`, with the element's label text, `aria-label` and `placeholder`
      attribute given as optional strings. */
  function InferKeyName(labelText: Option<string>, aria: Option<string>, placeholder: Option<string>): (r: string)
    ensures IsKeyText(r) || (Given(aria) && r == aria.value && !Given(labelText))
    ensures Given(labelText) ==> r == SanitizeKey(labelText.value)
    ensures !Given(labelText) && Given(aria) ==> r == aria.value
    ensures !Given(labelText) && !Given(aria) && Given(placeholder) ==> r == SanitizeKey(placeholder.value)
  {
    if Given(labelText) then SanitizeKey(labelText.value)
    else if Given(aria) then aria.value
    else if Given(placeholder) then SanitizeKey(placeholder.value)
    else "unknown_field"
  }

  /** Only the first attribute present decides the name: the label, then the
      `aria-label`, then the `placeholder`. */
  lemma InferKeyNamePrecedence(labelText: Option<string>, aria: Option<string>, aria': Option<string>,
                               placeholder: Option<string>, placeholder': Option<string>)
    requires Given(aria) ==> aria' == aria
    requires !Given(aria) ==> !Given(aria')
    ensures !Given(labelText) && Given(aria) ==> InferKeyName(labelText, aria, placeholder) == InferKeyName(labelText, aria', placeholder')
    ensures Given(labelText) ==> InferKeyName(labelText, aria, placeholder) == InferKeyName(labelText, aria', placeholder')
    ensures !Given(aria) && placeholder' == placeholder ==>
              InferKeyName(labelText, aria, placeholder) == InferKeyName(labelText, aria', placeholder')
  {
  }

  /** Without a label, an `aria-label` or a `placeholder`, the name is `unknown_field`. */
  lemma InferKeyNameFallback(labelText: Option<string>, aria: Option<string>, placeholder: Option<string>)
    requires !Given(labelText) && !Given(aria) && !Given(placeholder)
    ensures InferKeyName(labelText, aria, placeholder) == "unknown_field"
  {
  }
}
