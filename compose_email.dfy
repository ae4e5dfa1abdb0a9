/** The `email` builder: an HTML document kept as one string that every
    builder method extends and then returns. */
module ComposeEmail {

  /** What a new email starts with. */
  const Opening := "<html><body>"

  /** What `compose_email` closes the document with. */
  const Closing := "</body></html>"

  class Email {
    var html: string

    /** Builder methods only append, so the opening is never lost. */
    ghost predicate Valid()
      reads this
    {
      Opening <= html
    }

    /** `email()` */
    constructor ()
      ensures Valid() && html == Opening
    {
      html := Opening;
    }

    /** `introduction(introduction_text)`: the greeting and a line break. */
    method Introduction(introductionText: string := "Hi,") returns (r: string)
      requires Valid()
      modifies this
      ensures Valid() && old(html) <= html
      ensures html == old(html) + introductionText + "<br>"
      ensures r == html
    {
      html := html + introductionText + "<br>";
      r := html;
    }

    /** `body(body_introduction, body_text)`: the text as a paragraph;
        `body_introduction` is accepted and plays no part. */
    method Body(bodyIntroduction: string := "", bodyText: string := "") returns (r: string)
      requires Valid()
      modifies this
      ensures Valid() && old(html) <= html
      ensures html == old(html) + "<p>" + bodyText + "</p>"
      ensures r == html
    {
      var b := "<p>" + bodyText + "</p>";
      html := html + b;
      r := html;
    }

    /** `embed_table(header, table)`: a line break, the header, another line
        break and the table's HTML, which comes in already rendered. */
    method EmbedTable(header: string := "", renderedTable: string) returns (r: string)
      requires Valid()
      modifies this
      ensures Valid() && old(html) <= html
      ensures html == old(html) + "<br> " + header + "<br>" + renderedTable
      ensures r == html
    {
      var t := "<br> " + header + "<br>" + renderedTable;
      html := html + t;
      r := html;
    }

    /** `compose_email(salutation, signature)`: the sign-off, then the
        closing tags. */
    method ComposeEmail(salutation: string := "Regards,", signature: string := "Name Here") returns (r: string)
      requires Valid()
      modifies this
      ensures Valid() && old(html) <= html
      ensures html == old(html) + "<br>" + salutation + "<br>" + signature + Closing
      ensures r == html
    {
      html := html + "<br>" + salutation + "<br>" + signature + Closing;
      r := html;
    }
  }

  /** A complete message built the usual way: greeting, one paragraph,
      sign-off.  The document opens with `<html><body>`, closes with
      `</body></html>`, and holds the parts in the order they were added. */
  method StandardEmail(greeting: string, text: string, salutation: string, signature: string) returns (doc: string)
    ensures doc == Opening + greeting + "<br>" + "<p>" + text + "</p>" + "<br>" + salutation + "<br>" + signature + Closing
    ensures Opening <= doc && doc[|doc| - |Closing|..] == Closing
  {
    var m := new Email();
    var _ := m.Introduction(greeting);
    var _ := m.Body("", text);
    doc := m.ComposeEmail(salutation, signature);
  }
}
