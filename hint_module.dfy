/**
 The module-level state of the hint-button formatter and the operations that
 change it in place: displaying a frame, retrieving a frame for a button
 click, converting it to an interactive table, asking for the latest key,
 the runtime collecting frames, and switching the formatter on and off.
 */
module InteractiveTableHint {
  import opened Wrappers
  import opened HintCache
  import opened HintButtons
  import opened FormatterToggle

  /** The interactive table the data-table subsystem builds from a frame. */
  datatype DataTable<F> = DataTable(frame: F)

  /** A caller's mutable list of extra button snippets. */
  class ButtonList {
    var items: seq<string>

    constructor (items: seq<string>)
      ensures this.items == items
    {
      this.items := items;
    }

    /** Python's `list.insert(0, x)`. */
    method InsertFront(x: string)
      modifies this
      ensures items == [x] + old(items)
    {
      items := [x] + items;
    }
  }

  /**
   The module's dictionaries as fields. `F` is the dataframe type and `P`
   the type of a display printer saved from the shell's registry. The shallow
   copy, a frame's own HTML and the markup of the hint button are functions
   the module is given, not modelled further.
   */
  class HintModule<F, P> {
    var noninteractiveDfRefs: map<Key, F>
    var lastNoninteractiveDf: map<Key, F>
    var outputCallbacks: set<string>
    var registrations: seq<string>
    var originalFormatters: map<string, P>
    /** Every key handed out so far; a fresh uuid is never among them. */
    ghost var minted: set<Key>

    const shallowCopy: F -> F
    const reprHtml: F -> string
    const buttonHtml: Key -> string

    ghost predicate Valid()
      reads this
    {
      && Inv(State())
      && noninteractiveDfRefs.Keys <= minted
      && lastNoninteractiveDf.Keys <= minted
      && (forall k :: k in minted ==> IsDfKey(k))
    }

    /** The cache state as a value. */
    function State(): Session<F>
      reads this
    {
      Session(noninteractiveDfRefs, lastNoninteractiveDf, outputCallbacks, registrations)
    }

    constructor (shallowCopy: F -> F, reprHtml: F -> string, buttonHtml: Key -> string)
      ensures Valid()
      ensures State() == Initial() && originalFormatters == map[] && minted == {}
      ensures this.shallowCopy == shallowCopy && this.reprHtml == reprHtml && this.buttonHtml == buttonHtml
    {
      noninteractiveDfRefs := map[];
      lastNoninteractiveDf := map[];
      outputCallbacks := {};
      registrations := [];
      originalFormatters := map[];
      minted := {};
      this.shallowCopy := shallowCopy;
      this.reprHtml := reprHtml;
      this.buttonHtml := buttonHtml;
    }

    /**
     Formats `dataframe` with the hint button. The key is `df-` followed by
     the text of a fresh uuid. A non-empty caller list receives the hint
     button at its front; an empty or missing list is left alone.
     */
    method DfFormatterWithInteractiveHint(uuid: string, dataframe: F, buttons: ButtonList?) returns (html: TableHtml)
      requires Valid()
      requires MintKey(uuid) !in minted
      modifies this, buttons
      ensures Valid()
      ensures State() == Format(old(State()), MintKey(uuid), dataframe, shallowCopy(dataframe))
      ensures minted == old(minted) + {MintKey(uuid)} && originalFormatters == old(originalFormatters)
      ensures LastDataframeKey() == Some(MintKey(uuid))
      ensures var supplied := if buttons == null then None else Some(old(buttons.items));
        html == RenderHtml(MintKey(uuid), reprHtml(dataframe), WithHint(buttonHtml(MintKey(uuid)), supplied))
      ensures buttons != null ==>
        buttons.items == if old(buttons.items) == [] then [] else [buttonHtml(MintKey(uuid))] + old(buttons.items)
    {
      var key := MintKey(uuid);
      RememberFrame(key, dataframe);
      RegisterConvertCallback();
      assert lastNoninteractiveDf.Keys == {key};

      ghost var supplied := if buttons == null then None else Some(buttons.items);
      var hint := buttonHtml(key);
      var list: seq<string>;
      if buttons == null || buttons.items == [] {
        list := [hint];
      } else {
        buttons.InsertFront(hint);
        list := buttons.items;
      }
      assert list == WithHint(hint, supplied);
      html := TableHtml(key, reprHtml(dataframe), JoinLines(list));
    }

    /** Stores the frame in the weak cache and its copy as the only last-value entry. */
    method RememberFrame(key: Key, dataframe: F)
      requires Valid() && IsDfKey(key) && key !in minted
      modifies this
      ensures Valid()
      ensures State() == Remember(old(State()), key, dataframe, shallowCopy(dataframe))
      ensures minted == old(minted) + {key} && originalFormatters == old(originalFormatters)
    {
      noninteractiveDfRefs := noninteractiveDfRefs[key := dataframe];
      minted := minted + {key};
      // the last-value cache only ever holds the latest frame
      lastNoninteractiveDf := map[];
      lastNoninteractiveDf := lastNoninteractiveDf[key := shallowCopy(dataframe)];
    }

    /** Registers `convertToInteractive` with the host unless it is registered already. */
    method RegisterConvertCallback()
      requires Valid()
      modifies this
      ensures Valid()
      ensures State() == RegisterConvert(old(State()))
      ensures minted == old(minted) && originalFormatters == old(originalFormatters)
    {
      if ConvertFunc !in outputCallbacks {
        registrations := registrations + [ConvertFunc];
        outputCallbacks := outputCallbacks + {ConvertFunc};
      }
    }

    /** Pops the frame stored under `key`, looking in the last-value cache first. */
    method GetDataframe(key: Key) returns (df: Option<F>)
      requires Valid()
      modifies this
      ensures Valid()
      ensures df == Take(old(State()), key).frame && State() == Take(old(State()), key).rest
      ensures minted == old(minted) && originalFormatters == old(originalFormatters)
    {
      TakeInv(State(), key);
      if key in lastNoninteractiveDf {
        df := Some(lastNoninteractiveDf[key]);
        lastNoninteractiveDf := lastNoninteractiveDf - {key};
      } else if key in noninteractiveDfRefs {
        df := Some(noninteractiveDfRefs[key]);
        noninteractiveDfRefs := noninteractiveDfRefs - {key};
      } else {
        df := None;
      }
    }

    /** The callback behind the button: an interactive table for the stored frame, if any. */
    method ConvertToInteractive(key: Key) returns (table: Option<DataTable<F>>)
      requires Valid()
      modifies this
      ensures Valid()
      ensures var t := Take(old(State()), key);
        State() == t.rest && table == if t.frame.None? then None else Some(DataTable(t.frame.value))
      ensures minted == old(minted) && originalFormatters == old(originalFormatters)
    {
      var df := GetDataframe(key);
      if df.Some? {
        table := Some(DataTable(df.value));
      } else {
        table := None;
      }
    }

    /** The key of the most recently displayed frame still in the last-value cache. */
    function LastDataframeKey(): (r: Option<Key>)
      requires Valid()
      reads this
      ensures r == None <==> lastNoninteractiveDf == map[]
      ensures r.Some? ==> r.value in minted && lastNoninteractiveDf.Keys == {r.value}
    {
      LastKey(State())
    }

    /** The runtime collects the frames in `dead`; only their weak entries go. */
    method Collect(dead: set<Key>)
      requires Valid()
      modifies this
      ensures Valid()
      ensures State() == HintCache.Collect(old(State()), dead)
      ensures minted == old(minted) && originalFormatters == old(originalFormatters)
    {
      noninteractiveDfRefs := noninteractiveDfRefs - dead;
    }

    /** Installs the hint formatter, saving the replaced printer `current` unless one is saved. */
    method EnableDfInteractiveHintFormatter(shellPresent: bool, current: P)
      modifies this
      ensures originalFormatters == Enable(old(originalFormatters), shellPresent, current)
      ensures State() == old(State()) && minted == old(minted)
    {
      if !shellPresent {
        return;
      }
      if HtmlMime !in originalFormatters {
        originalFormatters := originalFormatters[HtmlMime := current];
      }
    }

    /** Restores the saved printer, if one is saved, returning what is handed back. */
    method DisableDfInteractiveHintFormatter(shellPresent: bool) returns (restored: Option<P>)
      modifies this
      ensures Restore(restored, originalFormatters) == Disable(old(originalFormatters), shellPresent)
      ensures State() == old(State()) && minted == old(minted)
    {
      restored := None;
      if !shellPresent {
        return;
      }
      if HtmlMime in originalFormatters {
        restored := Some(originalFormatters[HtmlMime]);
        originalFormatters := originalFormatters - {HtmlMime};
      }
    }
  }

  /**
   A display followed by three clicks on its button: the first converts the
   shallow copy, the second the original frame, the third finds nothing.
   */
  method ClickThreeTimes<F, P>(copy: F -> F, html: F -> string, button: Key -> string, uuid: string, frame: F)
    returns (first: Option<DataTable<F>>, second: Option<DataTable<F>>, third: Option<DataTable<F>>)
    ensures first == Some(DataTable(copy(frame)))
    ensures second == Some(DataTable(frame))
    ensures third == None
  {
    var m := new HintModule<F, P>(copy, html, button);
    var _ := m.DfFormatterWithInteractiveHint(uuid, frame, null);
    var key := MintKey(uuid);
    first := m.ConvertToInteractive(key);
    second := m.ConvertToInteractive(key);
    third := m.ConvertToInteractive(key);
  }
}
