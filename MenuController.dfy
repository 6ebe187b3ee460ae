/**
 * Model of Assets/Scripts/UI/MenuController.cs: the stack of open menus.
 * A Menu is reduced to whether its game object is active; Open and Close
 * switch that flag. The stack is a sequence whose last element is the top.
 */
module Menus {

  /** Stack contents after CloseMenu: unchanged when empty or when the protected base menu is alone on it, otherwise the top removed. */
  function AfterClose<T(==)>(stack: seq<T>, baseMenu: T, preventBaseClosing: bool): (r: seq<T>)
    ensures r <= stack && |stack| - 1 <= |r|
    ensures preventBaseClosing && stack != [] && stack[0] == baseMenu ==> r != [] && r[0] == baseMenu
  {
    if stack == [] then stack
    else if preventBaseClosing && stack == [baseMenu] then stack
    else stack[..|stack| - 1]
  }

  /** Whether CloseMenu pops anything from `stack`. */
  predicate Pops<T(==)>(stack: seq<T>, baseMenu: T, preventBaseClosing: bool)
  {
    stack != [] && !(preventBaseClosing && stack == [baseMenu])
  }

  /** A close either leaves the stack alone or removes exactly its top, keeping everything below. */
  lemma CloseRemovesOnlyTop<T>(stack: seq<T>, baseMenu: T, preventBaseClosing: bool)
    ensures Pops(stack, baseMenu, preventBaseClosing) ==>
      |AfterClose(stack, baseMenu, preventBaseClosing)| == |stack| - 1
      && AfterClose(stack, baseMenu, preventBaseClosing) + [stack[|stack| - 1]] == stack
    ensures !Pops(stack, baseMenu, preventBaseClosing) ==> AfterClose(stack, baseMenu, preventBaseClosing) == stack
  {
  }

  /** Opening a menu and closing it again restores the stack, except for the protected base menu opened on an empty stack. */
  lemma OpenThenClose<T>(stack: seq<T>, menu: T, baseMenu: T, preventBaseClosing: bool)
    ensures AfterClose(stack + [menu], baseMenu, preventBaseClosing) == stack
        <==> !(preventBaseClosing && menu == baseMenu && stack == [])
  {
  }

  /** Closes applied `k` times in a row. */
  function CloseTimes<T(==)>(stack: seq<T>, baseMenu: T, preventBaseClosing: bool, k: nat): seq<T>
    decreases k
  {
    if k == 0 then stack
    else CloseTimes(AfterClose(stack, baseMenu, preventBaseClosing), baseMenu, preventBaseClosing, k - 1)
  }

  /** With preventBaseClosing, a base menu at the bottom of the stack survives any number of closes and ends alone. */
  lemma {:induction false} BaseSurvivesCloses<T>(stack: seq<T>, baseMenu: T, k: nat)
    requires stack != [] && stack[0] == baseMenu
    ensures CloseTimes(stack, baseMenu, true, k) != []
    ensures CloseTimes(stack, baseMenu, true, k)[0] == baseMenu
    ensures k >= |stack| - 1 ==> CloseTimes(stack, baseMenu, true, k) == [baseMenu]
    decreases k
  {
    if k > 0 {
      var next := AfterClose(stack, baseMenu, true);
      if stack == [baseMenu] {
        assert next == stack;
      } else {
        assert |stack| > 1;
        assert next == stack[..|stack| - 1];
        assert next[0] == baseMenu;
      }
      BaseSurvivesCloses(next, baseMenu, k - 1);
    }
  }

  /** A menu's game object, active or not. */
  class Menu {
    var active: bool

    constructor (active: bool)
      ensures this.active == active
    {
      this.active := active;
    }

    method Open()
      modifies this
      ensures active
    {
      active := true;
    }

    method Close()
      modifies this
      ensures !active
    {
      active := false;
    }
  }

  class MenuController {
    const baseMenu: Menu
    const preventBaseClosing: bool
    /** `openMenus`, bottom first. */
    var openMenus: seq<Menu>

    /** Awake and Start: the base menu is on the stack exactly when it is already open. */
    constructor (baseMenu: Menu, preventBaseClosing: bool)
      ensures this.baseMenu == baseMenu && this.preventBaseClosing == preventBaseClosing
      ensures openMenus == if baseMenu.active then [baseMenu] else []
    {
      this.baseMenu := baseMenu;
      this.preventBaseClosing := preventBaseClosing;
      openMenus := if baseMenu.active then [baseMenu] else [];
    }

    /** Opens `menu` and pushes it. */
    method OpenMenu(menu: Menu)
      modifies this`openMenus, menu
      ensures menu.active
      ensures openMenus == old(openMenus) + [menu]
    {
      menu.Open();
      openMenus := openMenus + [menu];
    }

    /** Pops and closes the top menu, unless the stack is empty or only the protected base menu is left. */
    method CloseMenu()
      modifies this`openMenus, if Pops(openMenus, baseMenu, preventBaseClosing) then {openMenus[|openMenus| - 1]} else {}
      ensures openMenus == AfterClose(old(openMenus), baseMenu, preventBaseClosing)
      ensures Pops(old(openMenus), baseMenu, preventBaseClosing) ==> !old(openMenus)[|old(openMenus)| - 1].active
    {
      if |openMenus| == 0 { return; }
      if preventBaseClosing && |openMenus| == 1 && openMenus[0] == baseMenu {
        return;
      }
      var closingMenu := openMenus[|openMenus| - 1];
      openMenus := openMenus[..|openMenus| - 1];
      closingMenu.Close();
    }

    /** GoBackMenu input: a close. */
    method GoBackMenu()
      modifies this`openMenus, if Pops(openMenus, baseMenu, preventBaseClosing) then {openMenus[|openMenus| - 1]} else {}
      ensures openMenus == AfterClose(old(openMenus), baseMenu, preventBaseClosing)
      ensures Pops(old(openMenus), baseMenu, preventBaseClosing) ==> !old(openMenus)[|old(openMenus)| - 1].active
    {
      CloseMenu();
    }

    /** ToggleMenu input: opens the base menu when it is inactive, otherwise goes back. */
    method ToggleMenu()
      modifies this`openMenus,
        if !baseMenu.active then {baseMenu}
        else if Pops(openMenus, baseMenu, preventBaseClosing) then {openMenus[|openMenus| - 1]}
        else {}
      ensures !old(baseMenu.active) ==> baseMenu.active && openMenus == old(openMenus) + [baseMenu]
      ensures old(baseMenu.active) ==> openMenus == AfterClose(old(openMenus), baseMenu, preventBaseClosing)
      ensures old(baseMenu.active) && Pops(old(openMenus), baseMenu, preventBaseClosing) ==>
        !old(openMenus)[|old(openMenus)| - 1].active
    {
      if !baseMenu.active {
        OpenMenu(baseMenu);
      } else {
        GoBackMenu();
      }
    }
  }
}
