/**
 * The sample page the package's tests parse, as the parsed document the
 * extraction walks, and what the extraction makes of it.
 */
module SamplePage {
  import opened Common
  import opened Dom
  import opened Text
  import opened FormExtraction
  import opened TableExtraction

  function Plain(attrs: map<string, string>, text: string): Element
  {
    Element(attrs, text, Some(text))
  }

  /** `<form method="post" name="logout">`: one hidden input and a select whose first option is selected. */
  function LogoutForm(): FormElem
  {
    FormElem(
      Plain(map["method" := "post", "name" := "logout"], ""),
      [Plain(map["type" := "hidden", "value" := "logout", "name" := "action"], "")],
      [SelectElem(Plain(map["name" := "today"], ""),
                  [Plain(map["selected" := ""], "Option One\n\t\t\t\t"),
                   Plain(map[], "Option Two\n\t\t\t")])])
  }

  /** `<form id="myform">`: a hidden input whose value attribute is misspelled, a text input, two tags and a select. */
  function MyForm(): FormElem
  {
    FormElem(
      Plain(map["id" := "myform"], ""),
      [Plain(map["type" := "hidden", "name" := "action", "valule" := "STORE"], ""),
       Plain(map["type" := "text", "name" := "USERNAME", "value" := "My Name"], ""),
       Plain(map["type" := "hidden", "name" := "tag", "value" := "dev"], ""),
       Plain(map["type" := "hidden", "name" := "tag", "value" := "user"], "")],
      [SelectElem(Plain(map["name" := "userType"], ""),
                  [Plain(map["selected" := "selected", "value" := "user"], "User"),
                   Plain(map["value" := "developer"], "Developer")])])
  }

  /** The table: a header row, a two-cell row, a one-cell row and a row with an empty cell and a link. */
  function SampleTable(): TableElem
  {
    TableElem(
      Plain(map["class" := "table", "role" := "table", "id" := "sampletbl"], ""),
      [Row([Plain(map[], "Header 1"), Plain(map[], "Header 2")], []),
       Row([], [Plain(map[], "Cell 1,1"), Plain(map[], "Cell 1, 2")]),
       Row([], [Plain(map["colspan" := "2"], "Sum")]),
       Row([], [Plain(map[], ""), Element(map[], "Add new row", Some("<a href=\"/new\">Add new row</a>"))])])
  }

  function SampleDocument(): Document
  {
    Document([LogoutForm(), MyForm()], [SampleTable()])
  }

  /** The logout form posts one action and the selected option's trimmed text. */
  lemma LogoutFormFields()
    ensures FormOf(LogoutForm()) == Form("post", "", "logout", "", map["action" := ["logout"], "today" := ["Option One"]])
  {
    var f := LogoutForm();
    var input := f.inputs[0];
    LowerFixed("hidden");
    assert InputType(input) == "hidden";
    var fields := map["action" := ["logout"]];
    assert AttrOr(input, "name", "") == "action" && AttrOr(input, "value", "") == "logout";
    var empty: Values := map[];
    assert Lookup(empty, "action") == [];
    assert ApplyInputs(empty, f.inputs) == ApplyInput(empty, input);
    assert ApplyInput(empty, input) == empty["action" := Lookup(empty, "action") + ["logout"]];
    assert [] + ["logout"] == ["logout"];
    assert ApplyInputs(empty, f.inputs) == fields;
    var opts := f.selects[0].options;
    OptionOneTrimmed();
    assert OptionValue(opts[0]) == "Option One";
    assert opts[..1][..0] == [];
    assert IsSelected(opts[0]) && !IsSelected(opts[1]);
    assert Lookup(fields, "today") == [];
    assert ApplyOptions(fields, "today", opts[..1][..0]) == fields;
    assert [] + [OptionValue(opts[0])] == ["Option One"];
    assert ApplyOptions(fields, "today", opts[..1]) == fields["today" := ["Option One"]];
    assert opts[..1] == opts[..|opts| - 1];
    assert ApplyOptions(fields, "today", opts) == fields["today" := ["Option One"]];
    assert ApplySelects(fields, f.selects) == ApplySelect(fields, f.selects[0]);
  }

  /**
   * The second form has no method (so GET); the misspelled value attribute
   * leaves "action" with an empty value, and the repeated "tag" collects
   * both values in document order.
   */
  lemma MyFormFields()
    ensures FormOf(MyForm()) ==
              Form("GET", "myform", "", "",
                   map["action" := [""], "USERNAME" := ["My Name"], "tag" := ["dev", "user"], "userType" := ["user"]])
  {
    var f := MyForm();
    var m4 := map["action" := [""], "USERNAME" := ["My Name"], "tag" := ["dev", "user"]];
    MyFormInputs();
    var opts := f.selects[0].options;
    assert opts[..1][..0] == [] && opts[..1] == opts[..|opts| - 1];
    assert IsSelected(opts[0]) && !IsSelected(opts[1]);
    assert OptionValue(opts[0]) == "user";
    assert ApplyOptions(m4, "userType", opts[..1][..0]) == m4;
    assert Lookup(m4, "userType") + ["user"] == ["user"];
    assert ApplyOptions(m4, "userType", opts[..1]) == m4["userType" := ["user"]];
    assert ApplyOptions(m4, "userType", opts) == m4["userType" := ["user"]];
    assert ApplySelects(m4, f.selects) == ApplySelect(m4, f.selects[0]);
  }

  lemma MyFormInputs()
    ensures ApplyInputs(map[], MyForm().inputs) == map["action" := [""], "USERNAME" := ["My Name"], "tag" := ["dev", "user"]]
  {
    var ins := MyForm().inputs;
    var m0: Values := map[];
    var m2 := map["action" := [""], "USERNAME" := ["My Name"]];
    MyFormFirstInputs();
    LowerFixed("hidden");
    assert ins[..3][..2] == ins[..2] && ins[..3] == ins[..|ins| - 1];
    assert ApplyInputs(m0, ins[..3]) == ApplyInput(m2, ins[2]);
    assert ApplyInput(m2, ins[2]) == m2["tag" := Lookup(m2, "tag") + ["dev"]];
    assert [] + ["dev"] == ["dev"];
    var m3 := m2["tag" := ["dev"]];
    assert ApplyInputs(m0, ins) == ApplyInput(m3, ins[3]);
    assert ApplyInput(m3, ins[3]) == m3["tag" := Lookup(m3, "tag") + ["user"]];
    assert ["dev"] + ["user"] == ["dev", "user"];
  }

  lemma MyFormFirstInputs()
    ensures ApplyInputs(map[], MyForm().inputs[..2]) == map["action" := [""], "USERNAME" := ["My Name"]]
  {
    var ins := MyForm().inputs;
    LowerFixed("hidden");
    LowerFixed("text");
    var m0: Values := map[];
    var m1 := m0["action" := [""]];
    assert ins[..1][..0] == [] && ins[..2][..1] == ins[..1];
    assert ApplyInput(m0, ins[0]) == m0["action" := Lookup(m0, "action") + [""]];
    assert ApplyInputs(m0, ins[..1]) == ApplyInput(ApplyInputs(m0, []), ins[0]);
    assert [] + [""] == [""];
    assert ApplyInputs(m0, ins[..1]) == m1;
    assert ApplyInput(m1, ins[1]) == m1["USERNAME" := Lookup(m1, "USERNAME") + ["My Name"]];
    assert ApplyInputs(m0, ins[..2]) == ApplyInput(m1, ins[1]);
    assert [] + ["My Name"] == ["My Name"];
  }

  /**
   * The sample table: the header row gives the header and no data row, the
   * other three rows give data rows of two, one and two cells, and every
   * row, the header row included, gives a raw-cell entry.
   */
  lemma SampleTableExtracted()
    ensures TableOf(SampleTable()).id == "sampletbl" && TableOf(SampleTable()).cls == "table"
    ensures TableOf(SampleTable()).header == ["Header 1", "Header 2"]
    ensures TableOf(SampleTable()).data == [["Cell 1,1", "Cell 1, 2"], ["Sum"], ["", "Add new row"]]
    ensures |TableOf(SampleTable()).rawCells| == 4
    ensures TableOf(SampleTable()).rawCells[3] == ["", "<a href=\"/new\">Add new row</a>"]
  {
    var te := SampleTable();
    var rows := te.rows;
    TableOfShape(te);
    AddRowsShape(Table("sampletbl", "table", [], [], []), rows);
    assert rows[1..][1..][1..][1..] == [];
    assert HeaderOf(rows[1..]) == [];
    assert Texts(rows[0].ths) == ["Header 1", "Header 2"];
    assert rows[1..][1..][1..][0] == rows[3] && rows[1..][1..][0] == rows[2] && rows[1..][0] == rows[1];
    assert Texts(rows[3].tds) == ["", "Add new row"];
    assert Texts(rows[2].tds) == ["Sum"];
    assert Texts(rows[1].tds) == ["Cell 1,1", "Cell 1, 2"];
    assert DataOf(rows[1..][1..][1..][1..]) == [];
    assert DataOf(rows[1..][1..][1..]) == [["", "Add new row"]];
    assert DataOf(rows[1..][1..]) == [["Sum"], ["", "Add new row"]];
    assert DataOf(rows[1..]) == [["Cell 1,1", "Cell 1, 2"], ["Sum"], ["", "Add new row"]];
    var cells := rows[3].tds;
    assert cells[..1][..0] == [] && cells[..1] == cells[..|cells| - 1];
    assert Htmls(cells[..1]) == [""];
    assert Htmls(rows[3].ths) == [];
  }

  /** A string with no upper-case letter is its own lower case. */
  lemma LowerFixed(s: string)
    requires forall i :: 0 <= i < |s| ==> 'a' <= s[i] <= 'z'
    ensures ToLower(s) == s
  {
  }

  lemma OptionOneTrimmed()
    ensures TrimSpace("Option One\n\t\t\t\t") == "Option One"
  {
    var t, w := "Option One", "\n\t\t\t\t";
    assert t[|t| - 1] == 'e' && !IsSpace('e');
    forall k | 0 <= k < |w|
      ensures IsSpace(w[k])
    {
      assert w[k] == '\n' || w[k] == '\t';
    }
    TrimRightDropsSpaces(t, w);
    var s := t + w;
    assert s[0] == 'O' && !IsSpace('O');
    assert TrimLeft(s) == s;
    assert TrimSpace(s) == TrimRight(TrimLeft(s));
    assert s == "Option One\n\t\t\t\t";
  }

  /** Trailing white space after a word is exactly what TrimRight removes. */
  lemma {:induction false} TrimRightDropsSpaces(t: string, w: string)
    requires t == [] || !IsSpace(t[|t| - 1])
    requires forall k :: 0 <= k < |w| ==> IsSpace(w[k])
    ensures TrimRight(t + w) == t
  {
    if w != [] {
      var v := w[..|w| - 1];
      assert (t + w)[..|t + w| - 1] == t + v;
      TrimRightDropsSpaces(t, v);
    } else {
      assert t + w == t;
    }
  }
}
