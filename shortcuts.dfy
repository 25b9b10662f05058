/** Keyboard shortcuts: on each key press, the actions of every shortcut
    whose key and modifiers match fire, except while typing in a text field,
    where only Escape shortcuts fire. */
module Shortcuts {
  import Seqs
  import Text

  /** A shortcut; `action` names the callback it runs. */
  datatype Shortcut = Shortcut(key: string, ctrl: bool, alt: bool, shift: bool, action: string, description: string)

  /** The parts of a key press the handler reads. */
  datatype KeyEvent = KeyEvent(
    key: string, ctrlKey: bool, metaKey: bool, altKey: bool, shiftKey: bool,
    targetTag: string, targetEditable: bool)

  /** The press happened in an input, a text area or an editable element. */
  predicate IsInputField(e: KeyEvent)
  {
    e.targetTag == "INPUT" || e.targetTag == "TEXTAREA" || e.targetEditable
  }

  /** Key (ignoring ASCII case) and each modifier agree; Ctrl and Meta are
      interchangeable, and an unrequested modifier must be up. */
  predicate Matches(s: Shortcut, e: KeyEvent)
  {
    && Text.Lower(e.key) == Text.Lower(s.key)
    && (if s.ctrl then e.ctrlKey || e.metaKey else !e.ctrlKey && !e.metaKey)
    && (if s.alt then e.altKey else !e.altKey)
    && (if s.shift then e.shiftKey else !e.shiftKey)
  }

  predicate IsEscape(s: Shortcut)
  {
    Text.Lower(s.key) == "escape"
  }

  /** A matching shortcut fires unless the press is in a text field and the
      shortcut is not an Escape one. */
  predicate Fires(s: Shortcut, e: KeyEvent)
  {
    Matches(s, e) && (IsEscape(s) || !IsInputField(e))
  }

  function ActionOf(s: Shortcut): string { s.action }

  /** The actions a press runs, in the order the shortcuts are listed. */
  function FiredActions(shortcuts: seq<Shortcut>, e: KeyEvent, enabled: bool): seq<string>
  {
    if !enabled then [] else Seqs.Map(Seqs.Filter(shortcuts, (s: Shortcut) => Fires(s, e)), ActionOf)
  }

  /** Extending the list by one shortcut extends the fired actions by its
      action exactly when it fires. */
  lemma FiredActionsSnoc(shortcuts: seq<Shortcut>, s: Shortcut, e: KeyEvent)
    ensures FiredActions(shortcuts + [s], e, true) ==
              FiredActions(shortcuts, e, true) + (if Fires(s, e) then [s.action] else [])
  {
    var p := (x: Shortcut) => Fires(x, e);
    Seqs.FilterAppend(shortcuts, [s], p);
    assert Seqs.Filter([s], p) == (if Fires(s, e) then [s] else []);
    var front := Seqs.Filter(shortcuts, p);
    var back := Seqs.Filter([s], p);
    assert Seqs.Map(front + back, ActionOf) == Seqs.Map(front, ActionOf) + Seqs.Map(back, ActionOf);
  }

  /** The keydown listener: runs the firing shortcuts' actions in order and
      prevents the browser's default when any fired. */
  method HandleKeyDown(shortcuts: seq<Shortcut>, e: KeyEvent, enabled: bool)
    returns (fired: seq<string>, prevented: bool)
    ensures fired == FiredActions(shortcuts, e, enabled)
    ensures prevented <==> |fired| > 0
  {
    fired := [];
    prevented := false;
    if !enabled {
      return;
    }
    var inputField := e.targetTag == "INPUT" || e.targetTag == "TEXTAREA" || e.targetEditable;
    var i := 0;
    while i < |shortcuts|
      invariant 0 <= i <= |shortcuts|
      invariant fired == FiredActions(shortcuts[..i], e, true)
      invariant prevented <==> |fired| > 0
    {
      var s := shortcuts[i];
      var ctrlMatch := if s.ctrl then e.ctrlKey || e.metaKey else !e.ctrlKey && !e.metaKey;
      var altMatch := if s.alt then e.altKey else !e.altKey;
      var shiftMatch := if s.shift then e.shiftKey else !e.shiftKey;
      var keyMatch := Text.Lower(e.key) == Text.Lower(s.key);
      FiredActionsSnoc(shortcuts[..i], s, e);
      assert shortcuts[..i + 1] == shortcuts[..i] + [s];
      if keyMatch && ctrlMatch && altMatch && shiftMatch {
        if Text.Lower(s.key) == "escape" || !inputField {
          prevented := true;
          fired := fired + [s.action];
        }
      }
      i := i + 1;
    }
    assert shortcuts[..i] == shortcuts;
  }

  /** Key matching ignores case: pressing the upper-case key matches the
      same shortcuts. */
  lemma MatchIgnoresCase(s: Shortcut, e: KeyEvent)
    ensures Matches(s, e.(key := Text.Upper(e.key))) == Matches(s, e)
  {
    Text.LowerUpper(e.key);
  }

  /** Meta stands in for Ctrl. */
  lemma MetaActsAsCtrl(s: Shortcut, e: KeyEvent)
    requires s.ctrl
    ensures Matches(s, e.(ctrlKey := false, metaKey := true)) == Matches(s, e.(ctrlKey := true, metaKey := false))
  {
  }

  /** In a text field only Escape shortcuts fire; elsewhere every matching
      one does. */
  lemma TextFieldsBlockAllButEscape(s: Shortcut, e: KeyEvent)
    ensures IsInputField(e) ==> (Fires(s, e) <==> Matches(s, e) && IsEscape(s))
    ensures !IsInputField(e) ==> (Fires(s, e) <==> Matches(s, e))
  {
  }

  /** A disabled hook runs nothing. */
  lemma DisabledRunsNothing(shortcuts: seq<Shortcut>, e: KeyEvent)
    ensures FiredActions(shortcuts, e, false) == []
  {
  }
}
