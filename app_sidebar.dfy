/** The navigation sidebar: its four entries and which of them is highlighted for the current path. */
module AppSidebar {
  import opened Text

  datatype MenuItem = MenuItem(title: string, url: string)

  /** The entries, in the order they are shown. */
  const Items := [
    MenuItem("Dashboard", "/"),
    MenuItem("Upload Firmware", "/upload"),
    MenuItem("Version History", "/versions"),
    MenuItem("Burn Statistics", "/statistics")
  ]

  /**
   * An entry is highlighted when the path is its url, or, for any entry but the
   * dashboard, when the path starts with its url. The prefix is taken character by
   * character, not segment by segment.
   */
  function IsActive(pathname: string, url: string): (active: bool)
    ensures pathname == url ==> active
    ensures url == "/" ==> (active <==> pathname == "/")
    ensures url != "/" ==> (active <==> StartsWith(pathname, url))
  {
    pathname == url || (url != "/" && StartsWith(pathname, url))
  }

  /** The menu shows exactly the four urls, in this order. */
  lemma MenuUrls()
    ensures |Items| == 4
    ensures Items[0].url == "/" && Items[1].url == "/upload" && Items[2].url == "/versions" && Items[3].url == "/statistics"
  {
  }

  /** Because the prefix is raw, "/uploadx" highlights the upload entry, and "/upload/new" does too. */
  lemma RawPrefix()
    ensures IsActive("/uploadx", "/upload")
    ensures IsActive("/upload/new", "/upload")
    ensures !IsActive("/upload", "/")
  {
    assert "/uploadx"[..|"/upload"|] == "/upload";
    assert "/upload/new"[..|"/upload"|] == "/upload";
  }

  /** On the dashboard's path "/" only the dashboard is highlighted. */
  lemma DashboardAlone(k: nat)
    requires k < |Items|
    ensures IsActive("/", Items[k].url) <==> k == 0
  {
    if k > 0 {
      assert |Items[k].url| > 1;
    }
  }
}
