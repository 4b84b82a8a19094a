/** The root layout's `load`: the two preference cookies as booleans, and
    the session passed through. */
module RootLayout {
  import opened Js
  import opened App
  import opened Kit

  datatype LayoutData = LayoutData(currentUser: Session, sideBarOpen: bool, largeScreen: bool)

  /** A preference flag is on exactly when its cookie is the text "yes"; an
      absent cookie or any other value reads as off. */
  function Load(currentUser: Session, jar: Jar): (d: LayoutData)
    ensures d.currentUser == currentUser
    ensures d.sideBarOpen <==> "SBOpen" in jar && jar["SBOpen"].value == "yes"
    ensures d.largeScreen <==> "LGScreen" in jar && jar["LGScreen"].value == "yes"
  {
    var sideBarOpen := Lookup(jar, "SBOpen") == Some("yes");
    var largeScreen := Lookup(jar, "LGScreen") == Some("yes");
    LayoutData(currentUser := currentUser, sideBarOpen := sideBarOpen, largeScreen := largeScreen)
  }

  /** After sign-in or sign-up has set `SBOpen` to the submitted "yes" or "no",
      the layout shows the side bar open exactly when "yes" was submitted, and
      the large-screen flag is left as it was. */
  lemma {:induction false} SideBarFollowsSubmittedFlag(currentUser: Session, jar: Jar, flag: string, options: CookieOptions)
    requires IsYesNo(flag)
    ensures Load(currentUser, jar["SBOpen" := Cookie(flag, options)]).sideBarOpen <==> flag == "yes"
    ensures Load(currentUser, jar["SBOpen" := Cookie(flag, options)]).largeScreen == Load(currentUser, jar).largeScreen
  {
  }
}
