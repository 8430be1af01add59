/**
 The roster store `Users` (src/main.rs:147-181): a `HashMap` from user id to display name,
 used through `Deref`/`DerefMut` for `clear`, `insert` and `remove`, plus `save`, which
 renders the names as one line and overwrites the roster file with it.
 */
module Roster {
  import opened DiscordState

  /** The fixed label the rendered roster starts with. */
  const Label: string := "On call: "

  /** The names joined with ", " between consecutive names. */
  function Join(names: seq<string>): string
  {
    if names == [] then ""
    else if |names| == 1 then names[0]
    else names[0] + ", " + Join(names[1..])
  }

  /** The text `save` writes for the names in the order the map yields them. */
  function Content(names: seq<string>): string
  {
    Label + Join(names)
  }

  /** The number of commas in `text`. */
  function Commas(text: string): nat
  {
    if text == [] then 0 else (if text[0] == ',' then 1 else 0) + Commas(text[1..])
  }

  /** `text` cut at every comma; the pieces keep any character that follows a comma. */
  function Split(text: string): (pieces: seq<string>)
    ensures |pieces| == Commas(text) + 1
  {
    if text == [] then [""]
    else if text[0] == ',' then [""] + Split(text[1..])
    else
      var rest := Split(text[1..]);
      [[text[0]] + rest[0]] + rest[1..]
  }

  /** Every piece with one leading blank removed, if it has one. */
  function Unspace(pieces: seq<string>): seq<string>
  {
    if pieces == [] then []
    else
      var p := pieces[0];
      [if p != [] && p[0] == ' ' then p[1..] else p] + Unspace(pieces[1..])
  }

  /** Every name with a blank in front. */
  function Spaced(names: seq<string>): seq<string>
  {
    if names == [] then [] else [" " + names[0]] + Spaced(names[1..])
  }

  /** Reads a rendered roster back into its list of names; `None` if the label is missing. */
  function ParseContent(text: string): Option<seq<string>>
  {
    if |text| < |Label| || text[..|Label|] != Label then None
    else
      var rest := text[|Label|..];
      if rest == [] then Some([])
      else
        var pieces := Split(rest);
        Some([pieces[0]] + Unspace(pieces[1..]))
  }

  /** A name that the rendered line keeps apart from its neighbours. */
  predicate PlainName(name: string)
  {
    name != [] && ',' !in name
  }

  lemma {:induction false} SplitPlain(text: string)
    requires ',' !in text
    ensures Split(text) == [text]
    decreases |text|
  {
    if text != [] {
      assert text[0] != ',';
      SplitPlain(text[1..]);
      assert [text[0]] + text[1..] == text;
    }
  }

  lemma {:induction false} SplitBlankFront(text: string)
    ensures Split(" " + text) == [" " + Split(text)[0]] + Split(text)[1..]
  {
    assert (" " + text)[1..] == text;
  }

  lemma {:induction false} SplitPrefix(a: string, b: string)
    requires ',' !in a
    ensures Split(a + b) == [a + Split(b)[0]] + Split(b)[1..]
    decreases |a|
  {
    if a != [] {
      assert (a + b)[0] == a[0] && a[0] != ',';
      assert (a + b)[1..] == a[1..] + b;
      SplitPrefix(a[1..], b);
      calc {
        Split(a + b);
        [[a[0]] + Split(a[1..] + b)[0]] + Split(a[1..] + b)[1..];
        [[a[0]] + (a[1..] + Split(b)[0])] + Split(b)[1..];
        { assert [a[0]] + (a[1..] + Split(b)[0]) == a + Split(b)[0]; }
        [a + Split(b)[0]] + Split(b)[1..];
      }
    } else {
      assert a + b == b && a + Split(b)[0] == Split(b)[0];
      assert Split(b) == [Split(b)[0]] + Split(b)[1..];
    }
  }

  /** Splitting the joined names at the commas gives the first name and then every
      other name behind the blank of its separator. */
  lemma {:induction false} SplitJoin(names: seq<string>)
    requires |names| >= 1
    requires forall i :: 0 <= i < |names| ==> ',' !in names[i]
    ensures Split(Join(names)) == [names[0]] + Spaced(names[1..])
    decreases |names|
  {
    if |names| == 1 {
      SplitPlain(names[0]);
    } else {
      var tail := Join(names[1..]);
      var x := "," + (" " + tail);
      SplitJoin(names[1..]);
      assert Join(names) == names[0] + x;
      SplitPrefix(names[0], x);
      assert x[0] == ',' && x[1..] == " " + tail;
      assert Split(x) == [""] + Split(" " + tail);
      SplitBlankFront(tail);
      assert names[1..][1..] == names[2..];
      calc {
        Split(Join(names));
        [names[0] + Split(x)[0]] + Split(x)[1..];
        { assert names[0] + "" == names[0]; }
        [names[0]] + Split(" " + tail);
        [names[0]] + ([" " + names[1]] + Spaced(names[2..]));
        [names[0]] + Spaced(names[1..]);
      }
    }
  }

  lemma {:induction false} UnspaceSpaced(names: seq<string>)
    ensures Unspace(Spaced(names)) == names
    decreases |names|
  {
    if names != [] {
      UnspaceSpaced(names[1..]);
      assert (" " + names[0])[1..] == names[0];
    }
  }

  /** Rendering and reading back are inverse when every name is non-empty and free of
      commas: the line says exactly which names are on call, in order. */
  lemma ContentRoundTrip(names: seq<string>)
    requires forall i :: 0 <= i < |names| ==> PlainName(names[i])
    ensures ParseContent(Content(names)) == Some(names)
  {
    var text := Content(names);
    assert text[..|Label|] == Label;
    assert text[|Label|..] == Join(names);
    if names != [] {
      assert Join(names)[0] == names[0][0];
      assert Join(names) != [];
      SplitJoin(names);
      var pieces := Split(Join(names));
      assert pieces[0] == names[0] && pieces[1..] == Spaced(names[1..]);
      UnspaceSpaced(names[1..]);
      assert [names[0]] + names[1..] == names;
    }
  }

  /** An empty roster renders exactly as the label, and `n >= 1` comma-free names are
      separated by `n - 1` commas. */
  lemma Separators(names: seq<string>)
    requires forall i :: 0 <= i < |names| ==> ',' !in names[i]
    ensures names == [] ==> Content(names) == "On call: "
    ensures names != [] ==> Commas(Join(names)) == |names| - 1
  {
    if names != [] {
      SplitJoin(names);
      SpacedLength(names[1..]);
    }
  }

  lemma {:induction false} SpacedLength(names: seq<string>)
    ensures |Spaced(names)| == |names|
    decreases |names|
  {
    if names != [] { SpacedLength(names[1..]); }
  }

  /** `order` lists every key of the roster exactly once. */
  ghost predicate Enumerates(order: seq<UserId>, keys: set<UserId>)
  {
    && (forall i, j :: 0 <= i < j < |order| ==> order[i] != order[j])
    && (forall u :: u in order <==> u in keys)
  }

  /** The names of the roster read along `order`. */
  function NamesAlong(m: map<UserId, string>, order: seq<UserId>): (names: seq<string>)
    requires forall u :: u in order ==> u in m
    ensures |names| == |order|
    ensures forall i :: 0 <= i < |order| ==> names[i] == m[order[i]]
  {
    if order == [] then [] else NamesAlong(m, order[..|order| - 1]) + [m[order[|order| - 1]]]
  }

  /** `text` is what `save` may write for roster `m`: its names, in some order of the keys. */
  ghost predicate Renders(text: string, m: map<UserId, string>)
  {
    exists order :: Enumerates(order, m.Keys) && text == Content(NamesAlong(m, order))
  }

  /** The users listed in `order`. */
  function Listed(order: seq<UserId>): set<UserId>
  {
    set u | u in order
  }

  lemma {:induction false} DistinctCount(order: seq<UserId>)
    requires forall i, j :: 0 <= i < j < |order| ==> order[i] != order[j]
    ensures |Listed(order)| == |order|
    decreases |order|
  {
    if order != [] {
      var init := order[..|order| - 1];
      DistinctCount(init);
      LastNotBefore(order);
    }
  }

  /** The users among `among` whom roster `m` lists under `name`. */
  function Holders(m: map<UserId, string>, among: set<UserId>, name: string): set<UserId>
  {
    set u | u in among && u in m && m[u] == name
  }

  /** Adding one more user `x` to the users considered adds `x` to the holders of its own
      name only. */
  lemma HoldersAdd(m: map<UserId, string>, among: set<UserId>, x: UserId, name: string)
    requires x in m && x !in among
    ensures |Holders(m, among + {x}, name)| ==
      |Holders(m, among, name)| + (if m[x] == name then 1 else 0)
  {
    var before := Holders(m, among, name);
    if m[x] == name {
      assert Holders(m, among + {x}, name) == before + {x};
    } else {
      assert Holders(m, among + {x}, name) == before;
    }
  }

  /** The last element of a duplicate-free sequence does not occur before it. */
  lemma LastNotBefore(order: seq<UserId>)
    requires order != []
    requires forall i, j :: 0 <= i < j < |order| ==> order[i] != order[j]
    ensures order[|order| - 1] !in Listed(order[..|order| - 1])
    ensures Listed(order) == Listed(order[..|order| - 1]) + {order[|order| - 1]}
  {
    var init := order[..|order| - 1];
    assert order == init + [order[|order| - 1]];
    forall i | 0 <= i < |init| ensures init[i] != order[|order| - 1] {
      assert init[i] == order[i];
    }
  }

  /** Along a duplicate-free `order`, `name` occurs as often as the listed users who
      bear it. */
  lemma {:induction false} NamesAlongCount(m: map<UserId, string>, order: seq<UserId>, name: string)
    requires forall u :: u in order ==> u in m
    requires forall i, j :: 0 <= i < j < |order| ==> order[i] != order[j]
    ensures multiset(NamesAlong(m, order))[name] == |Holders(m, Listed(order), name)|
    decreases |order|
  {
    if order == [] {
      assert Holders(m, Listed(order), name) == {};
    } else {
      var init := order[..|order| - 1];
      var last := order[|order| - 1];
      NamesAlongCount(m, init, name);
      LastNotBefore(order);
      HoldersAdd(m, Listed(init), last, name);
      assert NamesAlong(m, order) == NamesAlong(m, init) + [m[last]];
    }
  }

  /** The rendered names are the roster's names, one per user: as many names as entries,
      every entry's name appears, every name belongs to some entry, and each name occurs
      exactly as often as there are users bearing it. */
  lemma RenderedNames(m: map<UserId, string>, order: seq<UserId>)
    requires Enumerates(order, m.Keys)
    ensures |NamesAlong(m, order)| == |m|
    ensures forall u :: u in m ==> m[u] in NamesAlong(m, order)
    ensures forall n :: n in NamesAlong(m, order) ==> exists u :: u in m && m[u] == n
    ensures forall n :: multiset(NamesAlong(m, order))[n] == |Holders(m, m.Keys, n)|
  {
    DistinctCount(order);
    assert Listed(order) == m.Keys;
    var names := NamesAlong(m, order);
    forall u | u in m ensures m[u] in names {
      var i :| 0 <= i < |order| && order[i] == u;
      assert names[i] == m[u];
    }
    forall n ensures multiset(NamesAlong(m, order))[n] == |Holders(m, m.Keys, n)| {
      NamesAlongCount(m, order, n);
    }
  }

  /** The `values().map(..).collect().join(", ")` of `save`: the names of the map in the
      order the map hands out its keys, which is left open. */
  method RenderRoster(m: map<UserId, string>) returns (text: string, ghost order: seq<UserId>)
    ensures Enumerates(order, m.Keys)
    ensures text == Content(NamesAlong(m, order))
    ensures m == map[] ==> text == Label
  {
    var rest := m.Keys;
    var names: seq<string> := [];
    order := [];
    while rest != {}
      invariant rest <= m.Keys
      invariant forall u :: u in order <==> u in m.Keys - rest
      invariant forall i, j :: 0 <= i < j < |order| ==> order[i] != order[j]
      invariant names == NamesAlong(m, order)
      invariant |order| + |rest| == |m.Keys|
      decreases rest
    {
      var u :| u in rest;
      assert u !in order;
      names := names + [m[u]];
      order := order + [u];
      rest := rest - {u};
    }
    text := Label + Join(names);
  }

  /** The roster store and the roster file it saves to. */
  class Users {
    var entries: map<UserId, string>
    const filename: string
    /** The content of the roster file; `None` until the first `save`. */
    var file: Option<string>

    constructor (filename: string)
      ensures entries == map[] && this.filename == filename && file == None
    {
      entries := map[];
      this.filename := filename;
      file := None;
    }

    method Clear()
      modifies this`entries
      ensures entries == map[]
    {
      entries := map[];
    }

    /** `HashMap::insert`: adds the entry or overwrites the name of an existing one. */
    method Insert(u: UserId, name: string)
      modifies this`entries
      ensures entries == old(entries)[u := name]
      ensures u in entries && entries[u] == name
      ensures forall v :: v != u ==> (v in entries <==> v in old(entries))
    {
      entries := entries[u := name];
    }

    /** `HashMap::remove`: drops the entry and returns the name it held, if any. */
    method Remove(u: UserId) returns (removed: Option<string>)
      modifies this`entries
      ensures entries == old(entries) - {u}
      ensures removed == if u in old(entries) then Some(old(entries)[u]) else None
      ensures u !in old(entries) ==> entries == old(entries)
    {
      removed := if u in entries then Some(entries[u]) else None;
      entries := entries - {u};
    }

    /** Overwrites the roster file with the rendered roster. */
    method Save()
      modifies this`file
      ensures file.Some? && Renders(file.value, entries)
    {
      var text, order := RenderRoster(entries);
      file := Some(text);
    }
  }
}
