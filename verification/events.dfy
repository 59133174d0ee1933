/**
 * EventJS: the ordered listener list (`Event`, `EventListener.is`), the
 * note store of a completion barrier (`EventPickerNote`), the barrier
 * itself (`EventPicker`) and the per-owner picker cache (`eventPicker`).
 */
module Events {
  import opened Wrappers
  import opened Values
  import Base

  // ---------------------------------------------------------------------
  // Action filters
  // ---------------------------------------------------------------------

  /**
   * The source text of the regular expression `toReqExpAction` builds from
   * an action list, AS WRITTEN: the items are split at blanks and joined
   * with `|`, but the escaped items the code computes are discarded, so
   * every item enters the expression unescaped.
   */
  function ActionSourceAsWritten(action: string): string {
    "^(" + Values.Join(Base.Split(action, ' '), "|") + ")\\.?"
  }

  /** Two different action lists the as-written filter cannot tell apart. */
  lemma ActionSourceCollision()
    ensures ActionSourceAsWritten("a b") == ActionSourceAsWritten("a|b")
    ensures "a b" != "a|b"
  {
    SplitNoSep('b', "", ' ');
    assert ['b'] + "" == "b";
    SplitSep(' ', "b");
    assert [' '] + "b" == " b";
    SplitNoSep('a', " b", ' ');
    assert ['a'] + " b" == "a b";
    SplitNoSep('|', "b", ' ');
    assert ['|'] + "b" == "|b";
    SplitNoSep('a', "|b", ' ');
    assert ['a'] + "|b" == "a|b";
  }

  lemma SplitNoSep(c: char, s: string, sep: char)
    requires c != sep
    ensures Base.Split([c] + s, sep) == [[c] + Base.Split(s, sep)[0]] + Base.Split(s, sep)[1..]
  {
    assert ([c] + s)[1..] == s;
  }

  lemma SplitSep(sep: char, s: string)
    ensures Base.Split([sep] + s, sep) == [""] + Base.Split(s, sep)
  {
    assert ([sep] + s)[1..] == s;
  }

  /** The characters `RegExp.escape` prefixes with a backslash. */
  predicate IsRegexMeta(c: char) {
    c == '.' || c == '*' || c == '+' || c == '?' || c == '^' || c == '$' || c == '{' || c == '}' ||
    c == '(' || c == ')' || c == '|' || c == '[' || c == ']' || c == '\\'
  }

  /** `RegExp.escape`: a backslash before every special character. */
  function Escape(item: string): (r: string)
    ensures |r| >= |item|
  {
    if item == [] then [] else EscapeChar(item[0]) + Escape(item[1..])
  }

  function EscapeChar(c: char): string {
    if IsRegexMeta(c) then ['\\', c] else [c]
  }

  function EscapeAll(parts: seq<string>): (r: seq<string>)
    ensures |r| == |parts|
  {
    if parts == [] then [] else [Escape(parts[0])] + EscapeAll(parts[1..])
  }

  /** The filter source with the escaping the code evidently intends: each item is escaped before joining. */
  function ActionSource(action: string): string {
    "^(" + ActionBody(action) + ")\\.?"
  }

  function ActionBody(action: string): string {
    Values.Join(EscapeAll(Base.Split(action, ' ')), "|")
  }

  /** Reads an alternation body back: an escaped character stands for itself, a bare `|` for a blank. */
  function Unescape(body: string): string {
    if body == [] then []
    else if body[0] == '\\' && |body| >= 2 then [body[1]] + Unescape(body[2..])
    else if body[0] == '|' then " " + Unescape(body[1..])
    else [body[0]] + Unescape(body[1..])
  }

  lemma {:induction false} UnescapeEscape(item: string, rest: string)
    ensures Unescape(Escape(item) + rest) == item + Unescape(rest)
  {
    if item == [] {
      assert Escape(item) + rest == rest;
    } else {
      var c := item[0];
      assert Escape(item) + rest == EscapeChar(c) + (Escape(item[1..]) + rest);
      UnescapeEscape(item[1..], rest);
      UnescapeStep(c, Escape(item[1..]) + rest);
      assert item + Unescape(rest) == [c] + (item[1..] + Unescape(rest));
    }
  }

  /** One escaped character reads back as itself. */
  lemma UnescapeStep(c: char, tail: string)
    ensures Unescape(EscapeChar(c) + tail) == [c] + Unescape(tail)
  {
    if IsRegexMeta(c) {
      assert (['\\', c] + tail)[2..] == tail;
    } else {
      assert ([c] + tail)[1..] == tail;
    }
  }

  lemma {:induction false} UnescapeJoin(parts: seq<string>)
    ensures Unescape(Values.Join(EscapeAll(parts), "|")) == Values.Join(parts, " ")
  {
    if |parts| == 1 {
      UnescapeEscape(parts[0], []);
      assert Escape(parts[0]) + [] == Escape(parts[0]);
    } else if |parts| > 1 {
      var es := EscapeAll(parts);
      var rest := Values.Join(EscapeAll(parts[1..]), "|");
      assert es[0] == Escape(parts[0]) && es[1..] == EscapeAll(parts[1..]);
      assert Values.Join(es, "|") == Escape(parts[0]) + ("|" + rest);
      UnescapeJoin(parts[1..]);
      UnescapeItemThenBar(parts[0], rest);
      assert Values.Join(parts, " ") == parts[0] + (" " + Values.Join(parts[1..], " "));
    }
  }

  /** An escaped item followed by `|` reads back as the item and a blank. */
  lemma UnescapeItemThenBar(item: string, rest: string)
    ensures Unescape(Escape(item) + ("|" + rest)) == item + (" " + Unescape(rest))
  {
    UnescapeEscape(item, "|" + rest);
    UnescapeBar(rest);
  }

  /** A bare `|` reads back as a blank. */
  lemma UnescapeBar(rest: string)
    ensures Unescape("|" + rest) == " " + Unescape(rest)
  {
    assert ("|" + rest)[1..] == rest;
  }

  /** The corrected filter body decodes back to the action list it was built from. */
  lemma ActionBodyRoundTrip(action: string)
    ensures Unescape(ActionBody(action)) == action
  {
    UnescapeJoin(Base.Split(action, ' '));
    Base.SplitJoin(action, ' ');
  }

  /** With the escaping in place, different action lists give different filters. */
  lemma ActionSourceInjective(a: string, b: string)
    requires ActionSource(a) == ActionSource(b)
    ensures a == b
  {
    var sa, sb := ActionSource(a), ActionSource(b);
    assert ActionBody(a) == sa[2..|sa| - 4];
    assert ActionBody(b) == sb[2..|sb| - 4];
    ActionBodyRoundTrip(a);
    ActionBodyRoundTrip(b);
  }

  /** An action list with every blank turned into `|`. */
  function BlanksToBars(s: string): (r: string)
    ensures |r| == |s|
  {
    if s == [] then [] else [if s[0] == ' ' then '|' else s[0]] + BlanksToBars(s[1..])
  }

  /** Splitting at blanks and joining with `|` turns each blank into a bar. */
  lemma {:induction false} JoinSplitBars(s: string)
    ensures Values.Join(Base.Split(s, ' '), "|") == BlanksToBars(s)
  {
    if s != [] {
      var rest := Base.Split(s[1..], ' ');
      JoinSplitBars(s[1..]);
      if s[0] == ' ' {
        assert Base.Split(s, ' ') == [""] + rest;
        assert ([""] + rest)[1..] == rest;
      } else {
        var parts := [[s[0]] + rest[0]] + rest[1..];
        assert Base.Split(s, ' ') == parts;
        if |rest| == 1 {
          assert parts == [[s[0]] + rest[0]];
        } else {
          assert parts[1..] == rest[1..];
          assert Values.Join(rest, "|") == rest[0] + "|" + Values.Join(rest[1..], "|");
        }
      }
    }
  }

  /**
   * The as-written filter of two action lists is the same exactly when
   * the lists agree once blanks are read as bars.
   */
  lemma SameFilterAsWritten(a: string, b: string)
    ensures ActionSourceAsWritten(a) == ActionSourceAsWritten(b) <==> BlanksToBars(a) == BlanksToBars(b)
  {
    JoinSplitBars(a);
    JoinSplitBars(b);
    var sa, sb := ActionSourceAsWritten(a), ActionSourceAsWritten(b);
    assert BlanksToBars(a) == sa[2..|sa| - 4];
    assert BlanksToBars(b) == sb[2..|sb| - 4];
  }

  // ---------------------------------------------------------------------
  // Listeners and the listener list
  // ---------------------------------------------------------------------

  /**
   * The options `eventListener` is called with: `listen` identifies the
   * callback, `self` the object it is applied to (if any).
   */
  datatype ListenerOption = ListenerOption(listen: nat, self: Option<nat>, action: Option<string>)

  /** What `trigger` passes to each listener: the exporting object and the event's action. */
  datatype Talk = Talk(exporter: Option<nat>, action: Option<string>)

  /**
   * The host's `RegExp.prototype.test`: whether the expression with the
   * given source matches the text.
   */
  type RegexTest = (string, string) -> bool

  /** The source of the filter a listener keeps for its `action` option, built as `toReqExpAction` builds it. */
  function ActionFilter(action: Option<string>): Option<string> {
    if action.Some? then Some(ActionSourceAsWritten(action.value)) else None
  }

  /**
   * `EventListener.is` for a listener with callback `listen` and filter
   * `filter`: the same callback, and either both filters have the same
   * source or one side has none. A filter is always truthy, but an empty
   * action string on the option's side is falsy without being absent.
   */
  predicate SameListener(listen: nat, filter: Option<string>, opt: ListenerOption) {
    listen == opt.listen &&
    if filter.Some? && opt.action.Some? && opt.action.value != "" then
      filter.value == ActionSourceAsWritten(opt.action.value)
    else
      filter.None? || opt.action.None?
  }

  /**
   * A listener built from an option is found again by that option exactly
   * when the option's action is not the empty string.
   */
  lemma OwnOptionFound(opt: ListenerOption)
    ensures SameListener(opt.listen, ActionFilter(opt.action), opt) <==> opt.action != Some("")
  {
  }

  /**
   * A listener built for action list `a` is the one an option with the same
   * callback and a non-empty action list `b` finds exactly when `a` and `b`
   * agree once blanks are read as bars; `"a b"` and `"a|b"` find each other.
   */
  lemma ListenerIdentity(opt: ListenerOption, other: ListenerOption)
    requires opt.action.Some? && other.action.Some? && other.action.value != ""
    ensures SameListener(opt.listen, ActionFilter(opt.action), other) <==>
      opt.listen == other.listen && BlanksToBars(opt.action.value) == BlanksToBars(other.action.value)
  {
    SameFilterAsWritten(opt.action.value, other.action.value);
  }

  class EventListener {
    const listen: nat
    const self: Option<nat>
    /** The source of the action filter, or `None` when the option had no action. */
    const action: Option<string>

    constructor (opt: ListenerOption)
      ensures listen == opt.listen && self == opt.self
      ensures action == ActionFilter(opt.action)
      ensures opt.action.Some? ==> action == Some("^(" + BlanksToBars(opt.action.value) + ")\\.?")
    {
      listen := opt.listen;
      self := opt.self;
      action := ActionFilter(opt.action);
      if opt.action.Some? {
        JoinSplitBars(opt.action.value);
      }
    }

    predicate Is(opt: ListenerOption) {
      SameListener(listen, action, opt)
    }

    /**
     * Whether `talk` applies the callback: the event was not exported by
     * the listener's own object (two absent objects count as the same) and
     * the action filter, if any, matches the action text (`"undefined"`
     * when the event has none).
     */
    predicate Accepts(t: Talk, test: RegexTest) {
      self != t.exporter &&
      (action.None? || test(action.value, if t.action.Some? then t.action.value else "undefined"))
    }
  }

  /** The index of the first listener that `is` the option, if any. */
  function FirstMatch(list: seq<EventListener>, opt: ListenerOption): (r: Option<nat>)
    ensures r.Some? ==>
      r.value < |list| && list[r.value].Is(opt) && forall k | 0 <= k < r.value :: !list[k].Is(opt)
    ensures r.None? ==> forall k | 0 <= k < |list| :: !list[k].Is(opt)
  {
    if list == [] then None
    else if list[0].Is(opt) then Some(0)
    else
      var r := FirstMatch(list[1..], opt);
      if r.None? then None else Some(r.value + 1)
  }

  /** `list` without its first occurrence of `x`. */
  function RemoveFirst(list: seq<EventListener>, x: EventListener): (r: seq<EventListener>)
    ensures x !in list ==> r == list
    ensures x in list ==> |r| == |list| - 1
  {
    if list == [] then []
    else if list[0] == x then list[1..]
    else [list[0]] + RemoveFirst(list[1..], x)
  }

  /** Removing the first occurrence at index `i` splices out exactly that element. */
  lemma {:induction false} RemoveFirstAt(list: seq<EventListener>, i: nat, x: EventListener)
    requires i < |list| && list[i] == x && x !in list[..i]
    ensures RemoveFirst(list, x) == list[..i] + list[i + 1..]
  {
    if i > 0 {
      assert list[1..][..i - 1] == list[..i][1..];
      RemoveFirstAt(list[1..], i - 1, x);
      assert list[..i] == [list[0]] + list[1..][..i - 1];
      assert list[i + 1..] == list[1..][i..];
    }
  }

  /** Removing a listener that was just appended gives back the list before. */
  lemma {:induction false} RemoveFirstAppended(list: seq<EventListener>, x: EventListener)
    requires x !in list
    ensures RemoveFirst(list + [x], x) == list
  {
    if list != [] {
      assert (list + [x])[1..] == list[1..] + [x];
      RemoveFirstAppended(list[1..], x);
      assert list == [list[0]] + list[1..];
    }
  }

  /** Removing one listener keeps the others in their order. */
  lemma {:induction false} RemoveFirstKeepsOthers(list: seq<EventListener>, x: EventListener, y: EventListener)
    requires y != x
    ensures multiset(RemoveFirst(list, x))[y] == multiset(list)[y]
  {
    if list != [] {
      RemoveFirstKeepsOthers(list[1..], x, y);
      assert list == [list[0]] + list[1..];
    }
  }

  /** The listeners whose callbacks `trigger` applies, in list order. */
  function Dispatched(list: seq<EventListener>, t: Talk, test: RegexTest): (r: seq<EventListener>)
    ensures forall l | l in r :: l in list && l.Accepts(t, test)
    ensures forall l | l in list && l.Accepts(t, test) :: l in r
  {
    if list == [] then []
    else (if list[0].Accepts(t, test) then [list[0]] else []) + Dispatched(list[1..], t, test)
  }

  /** Dispatching from position `i` decides on `list[i]`, then goes on from `i + 1`. */
  lemma DispatchedStep(list: seq<EventListener>, i: nat, t: Talk, test: RegexTest)
    requires i < |list|
    ensures Dispatched(list[i..], t, test) ==
      (if list[i].Accepts(t, test) then [list[i]] else []) + Dispatched(list[i + 1..], t, test)
  {
    assert list[i..][1..] == list[i + 1..];
  }

  /** `Event`: an ordered listener list. */
  class Event {
    var listeners: seq<EventListener>

    constructor ()
      ensures listeners == []
    {
      listeners := [];
    }

    /**
     * `add`: returns the first listener that `is` the option, or appends a
     * new one built from it.
     */
    method Add(opt: ListenerOption) returns (l: EventListener)
      modifies this
      ensures var m := FirstMatch(old(listeners), opt);
        if m.Some? then l == old(listeners)[m.value] && listeners == old(listeners)
        else (fresh(l) && l.listen == opt.listen && l.self == opt.self &&
          l.action == ActionFilter(opt.action) && listeners == old(listeners) + [l])
    {
      var i := 0;
      while i < |listeners|
        invariant 0 <= i <= |listeners|
        invariant forall k | 0 <= k < i :: !listeners[k].Is(opt)
      {
        if listeners[i].Is(opt) {
          return listeners[i];
        }
        i := i + 1;
      }
      l := new EventListener(opt);
      listeners := listeners + [l];
    }

    /** `trigger`: offers the event to every listener in list order; returns those that apply their callback. */
    method Trigger(t: Talk, test: RegexTest) returns (called: seq<EventListener>)
      ensures called == Dispatched(listeners, t, test)
    {
      var list := listeners;
      called := [];
      var i := 0;
      while i < |list|
        invariant 0 <= i <= |list|
        invariant called + Dispatched(list[i..], t, test) == Dispatched(list, t, test)
      {
        DispatchedStep(list, i, t, test);
        if list[i].Accepts(t, test) {
          called := called + [list[i]];
        }
        i := i + 1;
      }
    }

    /** `remove`: splices out the first listener that is the very same object. */
    method Remove(obj: EventListener)
      modifies this
      ensures listeners == RemoveFirst(old(listeners), obj)
    {
      var i := 0;
      while i < |listeners|
        invariant 0 <= i <= |listeners|
        invariant obj !in listeners[..i]
      {
        if listeners[i] == obj {
          RemoveFirstAt(listeners, i, obj);
          listeners := listeners[..i] + listeners[i + 1..];
          return;
        }
        assert listeners[..i + 1] == listeners[..i] + [listeners[i]];
        i := i + 1;
      }
      assert listeners[..i] == listeners;
    }
  }

  /**
   * Adding a listener for `"a|b"` after one for `"a b"` with the same
   * callback returns the listener already there: the list keeps one.
   */
  method AddMergesCollidingActions(listen: nat) returns (first: EventListener, second: EventListener, count: nat)
    ensures first == second && count == 1
  {
    var event := new Event();
    first := event.Add(ListenerOption(listen, None, Some("a b")));
    ActionSourceCollision();
    second := event.Add(ListenerOption(listen, None, Some("a|b")));
    count := |event.listeners|;
  }

  // ---------------------------------------------------------------------
  // The note store and the completion barrier
  // ---------------------------------------------------------------------

  /** A note on a barrier; `kind` is its `type` ("" when it has none). */
  datatype Note = Note(data: Value, kind: string)

  /** One named list of the note store, in creation order. */
  datatype NoteList = NoteList(kind: string, notes: seq<Note>)

  const DefaultNoteList: string := "own"

  function IndexOfKind(lists: seq<NoteList>, kind: string): (r: Option<nat>)
    ensures r.Some? ==> r.value < |lists| && lists[r.value].kind == kind
    ensures r.None? ==> forall k | 0 <= k < |lists| :: lists[k].kind != kind
  {
    if lists == [] then None
    else if lists[0].kind == kind then Some(0)
    else
      var r := IndexOfKind(lists[1..], kind);
      if r.None? then None else Some(r.value + 1)
  }

  function SumLengths(lists: seq<NoteList>): nat {
    if lists == [] then 0 else |lists[0].notes| + SumLengths(lists[1..])
  }

  lemma {:induction false} SumLengthsUpdate(lists: seq<NoteList>, i: nat, n: Note)
    requires i < |lists|
    ensures SumLengths(lists[i := NoteList(lists[i].kind, lists[i].notes + [n])]) == SumLengths(lists) + 1
  {
    if i > 0 {
      var upd := lists[i := NoteList(lists[i].kind, lists[i].notes + [n])];
      assert upd[1..] == lists[1..][i - 1 := NoteList(lists[i].kind, lists[i].notes + [n])];
      SumLengthsUpdate(lists[1..], i - 1, n);
    }
  }

  lemma {:induction false} SumLengthsAppend(lists: seq<NoteList>, l: NoteList)
    ensures SumLengths(lists + [l]) == SumLengths(lists) + |l.notes|
  {
    if lists != [] {
      assert (lists + [l])[1..] == lists[1..] + [l];
      SumLengthsAppend(lists[1..], l);
    }
  }

  /** `EventPickerNote`: named note lists. */
  class EventPickerNote {
    var lists: seq<NoteList>

    constructor ()
      ensures lists == []
    {
      lists := [];
    }

    /** `Length`: with a type it answers 0, whatever is stored; without, the total number of notes. */
    function Length(kind: Option<string>): nat
      reads this
    {
      if kind.Some? then 0 else SumLengths(lists)
    }

    predicate Empty(kind: Option<string>)
      reads this
    {
      Length(kind) == 0
    }

    /** The notes of list `kind` (the default list for ""), or none yet. */
    function Notes(kind: string): seq<Note>
      reads this
    {
      var key := if kind == "" then DefaultNoteList else kind;
      var i := IndexOfKind(lists, key);
      if i.Some? then lists[i.value].notes else []
    }

    /** `Add`: pushes onto list `option.type || type`, creating that list when it is new. */
    method Add(option: Note, kind: string)
      modifies this
      ensures var key := if option.kind != "" then option.kind else kind;
        Notes(key) == old(Notes(key)) + [option] &&
        forall other | other != (if key == "" then DefaultNoteList else key) && other != "" :: Notes(other) == old(Notes(other))
      ensures Length(None) == old(Length(None)) + 1
    {
      var key := if option.kind != "" then option.kind else kind;
      key := if key == "" then DefaultNoteList else key;
      var i := IndexOfKind(lists, key);
      if i.Some? {
        SumLengthsUpdate(lists, i.value, option);
        lists := lists[i.value := NoteList(key, lists[i.value].notes + [option])];
        assert forall k | k != key :: IndexOfKind(lists, k) == old(IndexOfKind(lists, k)) by {
          forall k | k != key ensures IndexOfKind(lists, k) == old(IndexOfKind(lists, k)) {
            IndexOfKindUpdate(old(lists), i.value, NoteList(key, old(lists)[i.value].notes + [option]), k);
          }
        }
        IndexOfKindUpdate(old(lists), i.value, NoteList(key, old(lists)[i.value].notes + [option]), key);
      } else {
        SumLengthsAppend(lists, NoteList(key, [option]));
        forall k | k != key ensures IndexOfKind(lists + [NoteList(key, [option])], k) == IndexOfKind(lists, k) {
          IndexOfKindAppend(lists, NoteList(key, [option]), k);
        }
        IndexOfKindAppend(lists, NoteList(key, [option]), key);
        lists := lists + [NoteList(key, [option])];
      }
    }
  }

  lemma {:induction false} IndexOfKindUpdate(lists: seq<NoteList>, i: nat, l: NoteList, k: string)
    requires i < |lists| && l.kind == lists[i].kind
    ensures IndexOfKind(lists[i := l], k) == IndexOfKind(lists, k)
  {
    if i > 0 {
      assert lists[i := l][1..] == lists[1..][i - 1 := l];
      IndexOfKindUpdate(lists[1..], i - 1, l, k);
    }
  }

  lemma {:induction false} IndexOfKindAppend(lists: seq<NoteList>, l: NoteList, k: string)
    ensures IndexOfKind(lists + [l], k) ==
      if IndexOfKind(lists, k).Some? then IndexOfKind(lists, k)
      else if l.kind == k then Some(|lists|) else None
  {
    if lists != [] {
      assert (lists + [l])[1..] == lists[1..] + [l];
      IndexOfKindAppend(lists[1..], l, k);
    }
  }

  /** The cache object a picker lives in: `cache.picker`, keyed by the action's first segment. */
  class PickerCache {
    var pickers: map<string, EventPicker>

    constructor ()
      ensures pickers == map[]
    {
      pickers := map[];
    }
  }

  /**
   * `EventPicker`: a completion barrier. `wait` counts the open holds
   * (1 for its creator); `Talk` releases one and fires the barrier once no
   * hold is left, provided empty barriers may fire or a note was taken.
   * Firing removes the barrier from its cache; the caller then triggers
   * the `complete` event with the barrier as payload.
   */
  class EventPicker {
    const cache: PickerCache
    const action: string
    const treat: string
    const empty: bool
    const note: EventPickerNote
    var wait: int

    constructor (cache: PickerCache, action: string, treat: string, empty: bool)
      ensures this.cache == cache && this.action == action && this.treat == treat && this.empty == empty
      ensures wait == 1 && fresh(note) && note.lists == []
    {
      this.cache := cache;
      this.action := action;
      this.treat := treat;
      this.empty := empty;
      wait := 1;
      note := new EventPickerNote();
    }

    /** Whether a `Talk` bringing the count to `w` fires. */
    predicate Fires(w: int)
      reads this, note
    {
      w <= 0 && (empty || !note.Empty(None))
    }

    /** `Wait`: one more hold. */
    method Wait()
      modifies this
      ensures wait == old(wait) + 1
    {
      wait := wait + 1;
    }

    /** `Talk`: release one hold; fire when none is left (and the empty guard allows it). */
    method Talk() returns (fired: bool)
      modifies this, cache
      ensures wait == old(wait) - 1
      ensures fired <==> Fires(wait)
      ensures cache.pickers == if fired then old(cache.pickers) - {treat} else old(cache.pickers)
    {
      wait := wait - 1;
      if wait > 0 || (!empty && note.Empty(None)) {
        return false;
      }
      cache.pickers := cache.pickers - {treat};
      fired := true;
    }

    /** `Note`: record a note on the barrier. */
    method AddNote(option: Note, kind: string)
      modifies note
      ensures note.Length(None) == old(note.Length(None)) + 1
      ensures var key := if option.kind != "" then option.kind else kind;
        note.Notes(key) == old(note.Notes(key)) + [option] &&
        forall other | other != (if key == "" then DefaultNoteList else key) && other != "" ::
          note.Notes(other) == old(note.Notes(other))
    {
      note.Add(option, kind);
    }
  }

  /** The text before the first `.` of an action: the key a picker is cached under. */
  function Treat(action: string): string {
    Base.Split(action, '.')[0]
  }

  const DefaultPickerAction: string := "task"

  /**
   * `eventPicker`: join the picker cached under the action's first segment
   * (one more hold), or create and cache a new one with a single hold.
   */
  method AcquirePicker(cache: PickerCache, action: string, empty: bool) returns (p: EventPicker)
    modifies cache, cache.pickers.Values
    ensures var act := if action == "" then DefaultPickerAction else action;
      var treat := Treat(act);
      if treat in old(cache.pickers) then
        p == old(cache.pickers[treat]) && p.wait == old(p.wait) + 1 && cache.pickers == old(cache.pickers)
      else
        fresh(p) && p.wait == 1 && p.cache == cache && p.action == act && p.treat == treat && p.empty == empty &&
        p.note.lists == [] && cache.pickers == old(cache.pickers)[treat := p]
    ensures forall q | q in old(cache.pickers.Values) && q != p :: q.wait == old(q.wait)
  {
    var act := if action == "" then DefaultPickerAction else action;
    var treat := Treat(act);
    if treat in cache.pickers {
      p := cache.pickers[treat];
      p.Wait();
      return;
    }
    p := new EventPicker(cache, act, treat, empty);
    cache.pickers := cache.pickers[treat := p];
  }
}
