// Keyboard access to the FAQ accordion (main.js, initFAQ): a keydown on a question's summary.

module Faq {

  /** What the keydown listener does with one key: whether it cancels the browser's default
      action and whether it clicks the summary (opening or closing the answer). */
  datatype KeyResponse = KeyResponse(preventDefault: bool, click: bool)

  /** Enter and Space click the summary; only Space has its default (scrolling the page)
      cancelled; every other key is left alone. */
  function OnKeydown(key: string): (r: KeyResponse)
    ensures r.click <==> key == "Enter" || key == " "
    ensures r.preventDefault <==> key == " "
    ensures r.preventDefault ==> r.click
  {
    if key == "Enter" || key == " " then KeyResponse(key == " ", true)
    else KeyResponse(false, false)
  }
}
