/** The optional dark theme: a toggle that flips the page's `dark-theme` class
    and remembers the choice, and the load step that restores it. */
module Theme {
  import opened Wrappers

  /** The value stored under the `theme` key for a flag. */
  function StoredValue(dark: bool): (v: string)
    ensures v == "dark" <==> dark
  {
    if dark then "dark" else "light"
  }

  /** The document body's `dark-theme` class and the stored `theme` entry
      (None when nothing was ever stored). */
  class Page {
    var darkTheme: bool
    var savedTheme: Option<string>

    constructor (savedTheme: Option<string>)
      ensures !darkTheme && this.savedTheme == savedTheme
    {
      darkTheme := false;
      this.savedTheme := savedTheme;
    }

    /** toggleTheme: the flag flips, and the value stored is "dark" exactly
        when the flag is now set. */
    method ToggleTheme()
      modifies this
      ensures darkTheme == !old(darkTheme)
      ensures savedTheme == Some(StoredValue(darkTheme))
    {
      darkTheme := !darkTheme;
      savedTheme := Some(StoredValue(darkTheme));
    }

    /** Loading the saved theme sets the flag when "dark" is stored and never
        clears it; storage is only read. */
    method LoadSavedTheme()
      modifies this`darkTheme
      ensures savedTheme == Some("dark") ==> darkTheme
      ensures savedTheme != Some("dark") ==> darkTheme == old(darkTheme)
    {
      if savedTheme == Some("dark") {
        darkTheme := true;
      }
    }
  }

  /** Two toggles restore the flag, and the next page load shows the theme
      that was current when the page was left. */
  method ToggleTwiceThenReload(p: Page) returns (next: Page)
    modifies p
    ensures p.darkTheme == old(p.darkTheme)
    ensures next.darkTheme == p.darkTheme
  {
    p.ToggleTheme();
    p.ToggleTheme();
    next := new Page(p.savedTheme);
    next.LoadSavedTheme();
  }
}
