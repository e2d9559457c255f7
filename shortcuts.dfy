/** The keydown handler installed by `useKeyboardShortcuts`
    (src/hooks/useKeyboardShortcuts.js): the first shortcut, in list order,
    whose key and modifiers match the event has its callback run, after the
    event's default action is prevented. */
module Shortcuts {
  import opened Wrappers
  import opened Text

  /** A shortcut; an absent flag is `false`. The callback is identified by
      the shortcut's position in the list. */
  datatype Shortcut = Shortcut(key: string, ctrl: bool, shift: bool, alt: bool, meta: bool)

  datatype KeyEvent = KeyEvent(key: string, ctrlKey: bool, shiftKey: bool, altKey: bool, metaKey: bool)

  /** `ctrlMatch`: a `ctrl` shortcut takes Control or Command, any other
      needs both up. */
  predicate CtrlMatch(s: Shortcut, e: KeyEvent) {
    if s.ctrl then e.ctrlKey || e.metaKey else !e.ctrlKey && !e.metaKey
  }

  /** The condition at useKeyboardShortcuts.js:15-20; `metaMatch` is
      computed by the source but not part of it. */
  predicate Matches(s: Shortcut, e: KeyEvent) {
    Lower(e.key) == Lower(s.key)
    && CtrlMatch(s, e)
    && (if s.shift then e.shiftKey else !e.shiftKey)
    && (if s.alt then e.altKey else !e.altKey)
  }

  /** The `meta` flag of a shortcut changes nothing. */
  lemma MetaIgnored(s: Shortcut, e: KeyEvent, meta: bool)
    ensures Matches(s.(meta := meta), e) == Matches(s, e)
  {
  }

  /** The key is compared without regard to case, on either side. */
  lemma KeyCaseInsensitive(s: Shortcut, e: KeyEvent)
    ensures Matches(s, e.(key := Lower(e.key))) == Matches(s, e)
    ensures Matches(s.(key := Lower(s.key)), e) == Matches(s, e)
  {
    LowerIdempotent(e.key);
    LowerIdempotent(s.key);
  }

  /** With Shift and Alt as the shortcut asks and the key matching, a `ctrl`
      shortcut fires on Control or Command alone, and any other only with
      both up. */
  lemma ControlOrCommand(s: Shortcut, key: string, cmd: bool)
    requires Lower(key) == Lower(s.key)
    ensures Matches(s, KeyEvent(key, !cmd, s.shift, s.alt, cmd)) <==> s.ctrl
    ensures Matches(s, KeyEvent(key, false, s.shift, s.alt, false)) <==> !s.ctrl
  {
  }

  /** `handleKeyDown(event)`: `fired` is the position of the shortcut whose
      callback ran, and `prevented` whether `preventDefault` was called. */
  method Dispatch(shortcuts: seq<Shortcut>, e: KeyEvent) returns (fired: Option<nat>, prevented: bool)
    ensures prevented <==> fired.Some?
    ensures fired.None? <==> forall i :: 0 <= i < |shortcuts| ==> !Matches(shortcuts[i], e)
    ensures fired.Some? ==> fired.value < |shortcuts| && Matches(shortcuts[fired.value], e)
    ensures fired.Some? ==> forall j :: 0 <= j < fired.value ==> !Matches(shortcuts[j], e)
  {
    fired, prevented := None, false;
    var i := 0;
    while i < |shortcuts|
      invariant 0 <= i <= |shortcuts|
      invariant forall j :: 0 <= j < i ==> !Matches(shortcuts[j], e)
    {
      if Matches(shortcuts[i], e) {
        prevented := true;
        fired := Some(i);
        return;
      }
      i := i + 1;
    }
  }
}
