/**
 * Message composition: every recipient is sent the caller's body, a blank
 * line, and a fixed HTML footer naming the tool's version and developer.
 * Characters are Unicode scalar values; they coincide with the UTF-16 code
 * units JavaScript's `.length` counts for text in the Basic Multilingual
 * Plane, which covers the whole footer.
 */
module Composition {

  /** `SOCIAL_INFO.version` */
  const VERSION: string := "v2.0.0"

  /** `SOCIAL_INFO.developer` */
  const DEVELOPER: string := "@Kaiiddo on Telegram"

  /** The separator between the body and the footer. */
  const SEPARATOR: string := "\n\n"

  /** The footer appended to every broadcast (U+2728 is a sparkle, U+2764 U+FE0F a red heart). */
  const FOOTER: string :=
    "<b><i><u>\U{2728} This broadcast sent via Broadcast API " + VERSION + " " +
    "Made With \U{2764}\U{FE0F} By " + DEVELOPER + " \U{2728}</u></i></b>"

  /** `fullMessage`: the text sent to every recipient for the body `message`. */
  function Compose(message: string): (text: string)
    ensures |text| == |message| + 108
    ensures text[..|message|] == message
    ensures text[|message|..|message| + 2] == SEPARATOR
    ensures text[|message| + 2..] == FOOTER
  {
    message + SEPARATOR + FOOTER
  }

  /** The footer is 106 characters long, so `message_length` is the body's length plus 108. */
  lemma FooterLength()
    ensures |FOOTER| == 106
  {
  }

  /** Distinct bodies give distinct texts: the body is recovered as the text's prefix. */
  lemma ComposeInjective(m1: string, m2: string)
    requires Compose(m1) == Compose(m2)
    ensures m1 == m2
  {
  }
}
