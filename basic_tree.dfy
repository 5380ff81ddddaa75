// The menu tree of examples/basic_tuimenu.rs: a top page with a callback, a
// "Settings" page and a quit entry; "Settings" nests a "Name" page whose last
// entry climbs two levels back to the top.
module BasicTree {
  import opened Navigation

  const NamePage: seq<Entry> := [
    Entry("Firstname", Map(1)),
    Entry("Lastname", Map(2)),
    Entry("Main menu", Back(2))
  ]

  const SettingsPage: seq<Entry> := [
    Entry("Name", Parent(NamePage)),
    Entry("Main menu", Back(1)),
    Entry("Quit", Quit)
  ]

  const TopPage: seq<Entry> := [
    Entry("Play", Map(0)),
    Entry("Settings", Parent(SettingsPage)),
    Entry("Quit", Quit)
  ]

  lemma TreeWellFormed()
    ensures WellFormed(NamePage) && WellFormed(SettingsPage) && WellFormed(TopPage)
  {
    assert WellFormed(NamePage);
    assert WellFormedChild(SettingsPage[0], NamePage);
    assert WellFormed(SettingsPage);
    assert WellFormedChild(TopPage[1], SettingsPage);
  }
}
