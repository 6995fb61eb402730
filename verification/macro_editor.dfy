/** The macro editor (src/components/MacroEditor.tsx): four numeric inputs
    over a local copy of the macros, each edit reported to the parent. The
    text-to-number parse is `parseFloat`'s result, given as a parameter. */
module MacroEditor {
  import opened Js
  import opened Nutrition

  /** The editor's local state. */
  datatype Editor = Editor(values: Macros)

  /** Mounting copies the props into local state. */
  function Mount(props: Macros): (ed: Editor)
    ensures forall f :: Get(ed.values, f) == Get(props, f)
  {
    Editor(props)
  }

  /** The new local state, and the record handed to `onUpdate`. */
  datatype Edit = Edit(editor: Editor, reported: Macros)

  /** `handleChange(field)` for an input whose text parsed to `parsed`. */
  function HandleChange(ed: Editor, field: Macro, parsed: Float): (r: Edit)
    ensures Get(r.editor.values, field) == OrZero(parsed)
    ensures forall g :: g != field ==> Get(r.editor.values, g) == Get(ed.values, g)
    ensures r.reported == r.editor.values
  {
    var v := With(ed.values, field, OrZero(parsed));
    Edit(Editor(v), v)
  }

  /** Unparseable text and zero both set the field to zero. */
  lemma BlankOrZeroInputIsZero(ed: Editor, field: Macro)
    ensures Get(HandleChange(ed, field, NaN).editor.values, field) == 0.0
    ensures HandleChange(ed, field, NaN) == HandleChange(ed, field, Fin(0.0))
  {
  }

  /** Two edits of the same field: the later one wins. */
  lemma {:induction false} LastEditWins(ed: Editor, field: Macro, x: Float, y: Float)
    ensures HandleChange(HandleChange(ed, field, x).editor, field, y) == HandleChange(ed, field, y)
  {
    var a := HandleChange(HandleChange(ed, field, x).editor, field, y).editor.values;
    var b := HandleChange(ed, field, y).editor.values;
    assert forall g :: Get(a, g) == Get(b, g);
    assert a.protein == Get(a, Protein) && b.protein == Get(b, Protein);
    assert a.fats == Get(a, Fats) && b.fats == Get(b, Fats);
    assert a.carbs == Get(a, Carbs) && b.carbs == Get(b, Carbs);
    assert a.calories == Get(a, Calories) && b.calories == Get(b, Calories);
  }

  /** Edits of different fields commute. */
  lemma {:induction false} DistinctEditsCommute(ed: Editor, f: Macro, x: Float, g: Macro, y: Float)
    requires f != g
    ensures HandleChange(HandleChange(ed, f, x).editor, g, y).editor
            == HandleChange(HandleChange(ed, g, y).editor, f, x).editor
  {
    var a := HandleChange(HandleChange(ed, f, x).editor, g, y).editor.values;
    var b := HandleChange(HandleChange(ed, g, y).editor, f, x).editor.values;
    assert forall h :: Get(a, h) == Get(b, h);
    assert a.protein == Get(a, Protein) && b.protein == Get(b, Protein);
    assert a.fats == Get(a, Fats) && b.fats == Get(b, Fats);
    assert a.carbs == Get(a, Carbs) && b.carbs == Get(b, Carbs);
    assert a.calories == Get(a, Calories) && b.calories == Get(b, Calories);
  }
}
