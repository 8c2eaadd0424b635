/**
 Installing and removing the hint formatter in the notebook shell's HTML
 display formatter, as a two-state toggle driven by the dictionary of saved
 original formatters. The shell's formatter registry itself is not modelled:
 `current` is the printer the registry hands back when the hint formatter is
 installed, and the printer a disable hands back to the registry is returned.
 */
module FormatterToggle {
  import opened Wrappers

  /** The mime type under which the original formatter is saved. */
  const HtmlMime: string := "text/html"

  /** Saved originals after an enable; `current` is the printer being replaced. */
  function Enable<P>(saved: map<string, P>, shellPresent: bool, current: P): (r: map<string, P>)
    ensures !shellPresent || HtmlMime in saved ==> r == saved
    ensures shellPresent && HtmlMime !in saved ==> r == saved[HtmlMime := current]
    ensures HtmlMime in r <==> HtmlMime in saved || shellPresent
  {
    if !shellPresent then saved
    else if HtmlMime !in saved then saved[HtmlMime := current]
    else saved
  }

  /** The printer given back to the registry, if any, and the saved originals left. */
  datatype Restore<P> = Restore(printer: Option<P>, saved: map<string, P>)

  function Disable<P>(saved: map<string, P>, shellPresent: bool): (r: Restore<P>)
    ensures shellPresent && HtmlMime in saved ==>
              r.printer == Some(saved[HtmlMime]) && r.saved == saved - {HtmlMime}
    ensures !shellPresent || HtmlMime !in saved ==> r.printer == None && r.saved == saved
    ensures HtmlMime !in r.saved <==> HtmlMime !in saved || shellPresent
  {
    if !shellPresent then Restore(None, saved)
    else if HtmlMime in saved then Restore(Some(saved[HtmlMime]), saved - {HtmlMime})
    else Restore(None, saved)
  }

  /** A repeated enable changes nothing: the first saved original is kept. */
  lemma EnableIdempotent<P>(saved: map<string, P>, shellPresent: bool, first: P, second: P)
    ensures Enable(Enable(saved, shellPresent, first), shellPresent, second) == Enable(saved, shellPresent, first)
  {
  }

  /** A repeated disable hands nothing back and changes nothing. */
  lemma DisableIdempotent<P>(saved: map<string, P>, shellPresent: bool)
    ensures var d := Disable(saved, shellPresent);
      Disable(d.saved, shellPresent) == Restore(None, d.saved)
  {
  }

  /**
   Enabling and then disabling hands back exactly the printer that enabling
   replaced and leaves the saved originals as they were before.
   */
  lemma EnableThenDisable<P>(saved: map<string, P>, current: P)
    requires HtmlMime !in saved
    ensures Disable(Enable(saved, true, current), true) == Restore(Some(current), saved)
  {
    assert Enable(saved, true, current) - {HtmlMime} == saved;
  }

  /**
   Whatever the history, a second enable hands its printer to nobody: the
   original replaced by the first enable stays the one restored later.
   */
  lemma EnableTwiceThenDisable<P>(saved: map<string, P>, first: P, second: P)
    requires HtmlMime !in saved
    ensures Disable(Enable(Enable(saved, true, first), true, second), true).printer == Some(first)
  {
  }
}
