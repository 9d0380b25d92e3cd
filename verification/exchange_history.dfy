/**
 * The status tag of a transaction on the exchange history screen
 * (src/screens/ExchangeHistoryScreen.js): its colour, its tinted
 * background, its icon and its label, all derived from `item.status`.
 */
module ExchangeHistory {
  import opened Js

  /** `getStatusColor(status)`: a `switch`, so the cases compare with `===`. */
  function StatusColor(status: Json): (c: string)
    ensures status == JStr("completed") ==> c == "#4CAF50"
    ensures status == JStr("pending") ==> c == "#FFC107"
    ensures status == JStr("cancelled") ==> c == "#F44336"
    ensures status != JStr("completed") && status != JStr("pending") && status != JStr("cancelled") ==> c == "#666"
  {
    if StrictEq(status, JStr("completed")) then "#4CAF50"
    else if StrictEq(status, JStr("pending")) then "#FFC107"
    else if StrictEq(status, JStr("cancelled")) then "#F44336"
    else "#666"
  }

  /** The icon name: a check mark for completed, a clock for pending, a cross for everything else. */
  function StatusIcon(status: Json): (r: string)
    ensures r == "checkmark-circle" <==> status == JStr("completed")
    ensures r == "time" <==> status == JStr("pending")
    ensures r == "close-circle" <==> status != JStr("completed") && status != JStr("pending")
  {
    if StrictEq(status, JStr("completed")) then "checkmark-circle"
    else if StrictEq(status, JStr("pending")) then "time"
    else "close-circle"
  }

  /** `status.charAt(0).toUpperCase() + status.slice(1)` */
  function StatusLabel(status: string): (r: string)
    ensures |r| == |status|
    ensures |status| > 0 ==> r[0] == UpperChar(status[0])
    ensures forall i :: 1 <= i < |status| ==> r[i] == status[i]
  {
    if status == [] then [] else [UpperChar(status[0])] + status[1..]
  }

  /** `` `${getStatusColor(status)}20` ``: the colour with the alpha digits `20` appended, as the screen writes it. */
  function TagBackground(status: Json): (r: string)
    ensures |r| == |StatusColor(status)| + 2 && r[..|StatusColor(status)|] == StatusColor(status)
  {
    StatusColor(status) + "20"
  }

  predicate IsHexDigit(c: char)
  {
    '0' <= c <= '9' || 'a' <= c <= 'f' || 'A' <= c <= 'F'
  }

  /** A colour React Native reads as hexadecimal: `#rgb`, `#rgba`, `#rrggbb` or `#rrggbbaa`. */
  predicate IsHexColor(s: string)
  {
    (|s| == 4 || |s| == 5 || |s| == 7 || |s| == 9) && s[0] == '#'
    && forall i :: 1 <= i < |s| ==> IsHexDigit(s[i])
  }

  /** `#rgb` written out as `#rrggbb`; a long colour is kept. */
  function LongForm(c: string): (r: string)
    requires IsHexColor(c) && (|c| == 4 || |c| == 7)
    ensures IsHexColor(r) && |r| == 7
    ensures |c| == 7 ==> r == c
  {
    if |c| == 4 then ['#', c[1], c[1], c[2], c[2], c[3], c[3]] else c
  }

  /** The background the tag is meant to have: the status colour, in long form, at alpha `0x20`. */
  function TintedBackground(status: Json): (r: string)
    ensures IsHexColor(r) && |r| == 9
  {
    LongForm(StatusColor(status)) + "20"
  }

  // ------------------------------------------------------------------ lemmas

  /** The label differs from the status only in the case of its first letter. */
  lemma LabelOnlyChangesCase(status: string)
    ensures ToLower(StatusLabel(status)) == ToLower(status)
    ensures StatusLabel(StatusLabel(status)) == StatusLabel(status)
  {
    var r := StatusLabel(status);
    forall i | 0 <= i < |status|
      ensures LowerChar(r[i]) == LowerChar(status[i])
    {
    }
  }

  /** A status the screen does not know gets the cancelled icon, but not the cancelled colour. */
  lemma UnknownStatusLooksCancelled(status: Json)
    requires status != JStr("completed") && status != JStr("pending") && status != JStr("cancelled")
    ensures StatusIcon(status) == StatusIcon(JStr("cancelled"))
    ensures StatusColor(status) != StatusColor(JStr("cancelled"))
  {
  }

  /** For the three known statuses the written background is a valid `#rrggbbaa` colour. */
  lemma KnownStatusBackground(status: Json)
    requires status == JStr("completed") || status == JStr("pending") || status == JStr("cancelled")
    ensures IsHexColor(TagBackground(status)) && |TagBackground(status)| == 9
  {
  }

  /**
   * Any other status gets `#666` and the background `#66620`: six
   * characters, which is no hexadecimal colour form.
   */
  lemma UnknownStatusBackground()
    ensures TagBackground(JStr("sold")) == "#66620"
    ensures !IsHexColor(TagBackground(JStr("sold")))
  {
  }

  /** The corrected background agrees with the written one wherever the written one is a colour. */
  lemma TintedAgreesWhereValid(status: Json)
    ensures IsHexColor(TagBackground(status)) ==> TintedBackground(status) == TagBackground(status)
    ensures !IsHexColor(TagBackground(status)) ==> TintedBackground(status) == "#66666620"
  {
  }
}
