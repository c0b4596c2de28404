# Tkinter demo applications: the logic under the widgets

The repository holds two tkinter demo applications. This project models the logic
they run beneath their widgets and proves properties of it.

- **The simple form** (`gui_app.py`, module `Form`). Submitting the user-information
  form strips its three fields and checks them in order: name, then email, then age.
  The age is read as an integer and must lie in 0..150. On success a seven-line report
  replaces the results text. Each failed check shows its own message box instead.
  "Calculate Sum" refuses an empty number field. "Clear All" empties everything.
  The form is the class `Form.FormApp`, with its entries and results text as fields.
  The decision `submit_form` takes is also a pure function, `Form.Submit`, and
  `FormApp.SubmitForm` is proved to agree with it.
- **The colour codec** of the sidebar's menu items (`complex_gui_app.py`, module
  `Colour`). `hex_to_rgb` strips the leading `#`s and reads three two-character
  slices with `int(…, 16)`. `rgb_to_hex` prints each channel with `format(n, '02x')`.
- **Navigation** (`complex_gui_app.py`, module `Navigation`). A menu item (`MenuItem`)
  has hover and active flags. The sidebar (`Sidebar`) creates four items, activates
  the item whose lower-cased label matches the page, forwards the page to its
  `on_navigate` callback, and toggles between 220 and 60 pixels wide. The application
  (`App`) switches between its four views: it hides the old view, shows the new one,
  and ignores unknown pages and the current page.
- **Python built-ins** the code relies on (module `PyText`):
  - `str.strip()`, `str.lower()`, `str.lstrip('#')`;
  - `int(s, base)`, `str(n)` and `format(n, '02x')`.

  They are written out so that the proofs do not depend on unstated assumptions.
  `int()` is modelled on ASCII text. It skips surrounding space, `\t`, `\n`, `\v`, `\f`
  and `\r`, then accepts an optional sign followed by digits of the base. The separators
  0x1C-0x1F are whitespace to `str.strip()` but not to `int()`, so `hex_to_rgb("#\x1cf0000")`
  raises ValueError (`HexToRgbSeparator`). In base 10 `int()` refuses more than 4300 digits,
  which is CPython's default `int_max_str_digits`; bases that are powers of two, such
  as 16, are exempt. Python's own `int()` also reads Unicode decimal digits and strips
  Unicode whitespace, which this model does not. `str.strip()` and `int()` share one
  definition of trimming, each with its own set of characters. `str(n)` and `format(n, '02x')` print
  the sign first, then digits with no leading zero; `02x` pads 0..15 to two characters.

Message boxes become returned `Notice` values. A menu item's `on_enter`, `on_leave` and
`set_active` return the colour they fade the item to, and `Sidebar.toggle` returns the
width it animates to. `Sidebar.navigate_to` and `create_menu_items` call `set_active`
and drop the colour it returns, so the model does not record those fades.

`hex_to_rgb` accepts a sign as `int()` does, so `"#-f0000"` reads as (-15, 0, 0).
Its channels therefore lie in -15..255, and the round trip
`hex_to_rgb(rgb_to_hex(r, g, b)) == (r, g, b)` holds exactly for channels in
-15..255. These are the channels that `02x` prints in two characters.
`Sidebar.navigate_to` forwards any page, known or not. An unknown page leaves no
menu item active. The menu only ever passes its own four pages, and each of those
activates exactly its own item (`MenuPagesSelectTheirItem`).
The agreement between the highlighted menu item and the current view (`App.Valid`) holds
for navigation that goes through the sidebar (`App.SelectMenuItem`). A direct call to
`navigate_to_page`, as in test_complex_gui.py:25 and demo_complex_gui.py:32, changes the
view and leaves the highlight on the old item. The home view's Explore button
(complex_gui_app.py:337) does not reach `navigate_to_page`: its `self.parent.master` is
the `main_container` frame, which has no such method, so the click raises AttributeError
and the view stays as it was. In the interactive application every successful navigation
therefore goes through the sidebar, and `App.Valid` holds throughout.

## Model

| member | source | states |
|---|---|---|
| Colour.LStripHash | complex_gui_app.py:125 | lstrip('#') never lengthens the colour and leaves it starting with something other than '#' |
| Colour.HexToRgb | complex_gui_app.py:124-126 | hex_to_rgb either raises ValueError or gives channels in -15..255, a sign being read as int() reads it |
| Colour.ReadChannels | complex_gui_app.py:126 | int(pair, 16) of the three slices gives channels in -15..255 whenever all three are read |
| Colour.RgbToHex | complex_gui_app.py:128-129 | the colour is at least 7 characters and starts with exactly one '#' |
| Colour.LStripHashSplits | complex_gui_app.py:125 | lstrip('#') removes exactly the leading run of '#' and keeps the rest unchanged |
| Colour.Slice | complex_gui_app.py:126 | a slice past the end is clamped to the length, and each character is the one at the same offset of the source string |
| Colour.HexToRgbWellFormed | complex_gui_app.py:124-126 | with six hex digits (either case) after the '#'s, hex_to_rgb succeeds, reads the pairs at 0, 2 and 4, and every channel is in 0..255 |
| Colour.HexToRgbIgnoresTail | complex_gui_app.py:124-126 | characters past the sixth after the '#'s never change the result |
| Colour.HexToRgbSeparator | complex_gui_app.py:124-126 | a separator 0x1C-0x1F right after the '#'s raises ValueError, as in "#\x1cf0000" |
| Colour.HexToRgbTooShort | complex_gui_app.py:124-126 | four or fewer characters after the '#'s always raise ValueError |
| Colour.ChannelShape | complex_gui_app.py:129 | format(n, '02x') of 0..255 is two lower-case hex digits whose value is n |
| Colour.RgbToHexShape | complex_gui_app.py:128-129 | for channels in 0..255 the colour is '#' followed by six lower-case hex digits encoding r, g, b in order |
| Colour.RgbToHexWidth | complex_gui_app.py:128-129 | the colour is 7 characters long if and only if every channel is in -15..255 |
| Colour.RoundTrip | complex_gui_app.py:124-129 | hex_to_rgb(rgb_to_hex(r, g, b)) gives back (r, g, b) for every channel in -15..255 |
| PyText.FormatHex02 | complex_gui_app.py:129 | format(n, '02x') is at least two characters and does not start with '#', '+' or whitespace |
| PyText.FormatHex02Width | complex_gui_app.py:129 | format(n, '02x') is exactly two characters if and only if -15 <= n <= 255 |
| PyText.ParseFormatHex02 | complex_gui_app.py:126-129 | int(format(n, '02x'), 16) == n for -15..255 |
| PyText.ShortHexBounds | complex_gui_app.py:126 | any slice of at most two characters that int(…, 16) accepts has a value in -15..255 |
| PyText.ToDigitsValue | complex_gui_app.py:129 | the digits printed for n in a base read back as n |
| PyText.Lower | complex_gui_app.py:208 | lower() keeps the length and lower-cases each ASCII capital, leaving every other character alone |
| Navigation.MenuItem.constructor | complex_gui_app.py:38-48 | a new menu item keeps its label and is neither active nor hovered |
| Navigation.MenuItem.OnEnter | complex_gui_app.py:88-91 | an inactive item becomes hovered and fades to the hover colour; an active item is untouched |
| Navigation.MenuItem.OnLeave | complex_gui_app.py:93-96 | an inactive item stops being hovered and fades to its base colour; an active item is untouched |
| Navigation.MenuItem.SetActive | complex_gui_app.py:98-101 | the active flag becomes the argument and the fade targets the active or the base colour; hovering is untouched |
| Navigation.Sidebar.constructor | complex_gui_app.py:139-146 | a new sidebar is expanded at width 220 and holds the four fresh items in menu order, with only Home active and nothing hovered |
| Navigation.Sidebar.CreateMenuItems | complex_gui_app.py:183-201 | four distinct new items labelled Home, Dashboard, Settings, About, of which only the first is active |
| Navigation.Selected | complex_gui_app.py:207-210 | the index chosen is the first whose lower-cased label equals the page, and none is chosen when no label matches |
| Navigation.FirstMatchUnique | complex_gui_app.py:207-210 | at most one item can be the first match |
| Navigation.MenuPagesSelectTheirItem | complex_gui_app.py:184-196 | the page bound to each menu item selects that item and no other |
| Navigation.Sidebar.NavigateTo | complex_gui_app.py:203-213 | afterwards exactly the first matching item is active, hover flags are unchanged, the items stay the same four, and the page is forwarded if a callback is set |
| Navigation.Sidebar.Click | complex_gui_app.py:84-86 | clicking item k runs the command bound to it at lines 191-196: it makes the item the only active item, leaves hover flags unchanged and forwards its page |
| Navigation.Sidebar.Toggle | complex_gui_app.py:215-217 | the expanded flag flips and the width animation targets 220 when expanding and 60 when collapsing |
| Navigation.ToggleTwice | complex_gui_app.py:215-217 | two toggles change nothing but the expanded flag, restore it, and target both widths, one each |
| Navigation.Navigate | complex_gui_app.py:677-691 | an unknown page changes nothing; a known page becomes current; nothing is hidden or shown exactly when the view stays the same; the previous view is hidden before the new one is shown |
| Navigation.NavigateIdempotent | complex_gui_app.py:683-684 | navigating again to the page just navigated to changes nothing |
| Navigation.App.NavigateToPage | complex_gui_app.py:677-691 | the new current view and the hides and shows are those of Navigate applied to the old current view |
| Navigation.App.constructor | complex_gui_app.py:660-673 | the application starts on the home view, with the Home item the only active one |
| Navigation.App.SelectMenuItem | complex_gui_app.py:660 | the sidebar forwards a click to navigate_to_page: afterwards the clicked item is the only active one, its page is the current view, the hides and shows are those of Navigate, and hover flags are unchanged; this holds from any view, so a click after a direct navigate_to_page brings the menu and the view back into agreement |
| PyText.Strip | gui_app.py:65-67 | strip() never lengthens a string, and its result neither starts nor ends with whitespace |
| PyText.StripSplits | gui_app.py:65-67 | strip() removes only leading and trailing whitespace, and its result is empty exactly when the field is blank |
| PyText.ParseInt | gui_app.py:82 | int() accepts only a non-blank string, and in base 10 at most 4300 digits after an optional sign once space and \t \n \v \f \r are skipped |
| PyText.IntStrip | gui_app.py:82 | what int() reads is never longer than its argument and neither starts nor ends with space, \t, \n, \v, \f or \r |
| PyText.SeparatorRefused | complex_gui_app.py:126 | a string starting with a separator 0x1C-0x1F, whitespace to str.strip(), is refused by int() in every base |
| PyText.TooManyDigits | gui_app.py:82 | a decimal string of more than 4300 digits raises ValueError whatever its value |
| PyText.FormatInt | gui_app.py:94 | str(n) starts with '-' exactly for negative n and is otherwise decimal digits |
| PyText.ParseFormatInt | gui_app.py:82-94 | int(str(n)) == n for every n str() prints: the age printed in the report reads back as the age accepted |
| Form.Submit | gui_app.py:64-102 | the outcome is one of the five validation messages or a report, and a report only for an age read as an integer in 0..150 |
| Form.Report | gui_app.py:90-102 | the accumulated report is the seven report lines, each followed by a newline |
| Form.Classify | gui_app.py:97-102 | Minor below 18, Adult from 18 to 64, Senior from 65 up |
| Form.Rule | gui_app.py:91 | the rule line is 40 '=' characters |
| Form.SubmitReportsFirstMissing | gui_app.py:64-79 | the first blank field in the order name, email, age is the one reported, as a warning |
| Form.SubmitAgeCheck | gui_app.py:81-104 | with all fields filled, an unreadable age is "Age must be a number.", an age outside 0..150 is the range error, and any other age gives the report of the stripped name and email |
| Form.SubmitSucceedsIff | gui_app.py:64-105 | a report is produced if and only if name and email are non-blank and the age reads as an integer in 0..150 |
| Form.SubmitAgeBoundaries | gui_app.py:83-85 | ages 0 and 150 are accepted and -1 and 151 are rejected as out of range |
| Form.LeadingZerosDropped | gui_app.py:82-94 | an age typed "007" is accepted and reported as 7 |
| Form.SubmitRejectsLongAge | gui_app.py:81-88 | an age of more than 4300 decimal digits is "Age must be a number.", even when its value is in range |
| Form.ReportIsSevenLines | gui_app.py:90-102 | split at its newlines, the report is exactly: heading, 40 '=', name, email, age, 40 '=', status |
| Form.FormApp.constructor | gui_app.py:22-58 | the five entries and the results text start empty |
| Form.FormApp.DisplayResult | gui_app.py:145-147 | the results text becomes exactly the message |
| Form.FormApp.ClearForm | gui_app.py:137-143 | all five entries and the results text are empty |
| Form.FormApp.SubmitForm | gui_app.py:64-105 | on success the results text is the report and an info box follows; on failure the results text is unchanged and the failing check's box is shown, as Submit decides |
| Form.FormApp.CalculateSum | gui_app.py:107-135 | a blank number field gives the warning and leaves the results alone; an unreadable number gives the error and leaves the results alone; otherwise the computed text is displayed |

## Left out

- Widget construction, layout, fonts, icons and colours of the frames: these only build the screen.
- The animation engine and its easing functions: these are timed, floating-point updates. Each
  animation the model keeps is reduced to its target. The colour interpolation inside
  animate_color is left out.
- Navigation.Sidebar.Toggle: does not model the width animation. `currentWidth` is set only by the
  constructor. Hiding the labels after the collapse animation, and showing them at once on
  expand, are not modelled.
- Navigation.App.NavigateToPage: hide() runs show() of the new view asynchronously once its fade
  ends. The returned list of view changes records that order but not the timing.
- The view classes (HomeView, DashboardView, SettingsView, AboutView): they only build widgets.
  A view is modelled by its name.
- Form.FormApp.CalculateSum: does not model float(), the arithmetic or the float formatting.
  The text the computation produces, or the ValueError from float(), is a parameter.
- PyText.Lower: ASCII only. Non-ASCII case mapping is not modelled, because the menu labels are ASCII.
- PyText.Strip: ASCII whitespace only. Non-ASCII Unicode whitespace is not modelled.
- PyText.ParseInt: Unicode decimal digits (such as Arabic-Indic digits) and non-ASCII Unicode
  whitespace are not modelled. Python reads them, so `hex_to_rgb('#١٢٣٤٥٦')` gives (18, 52, 86) where the model
  gives ValueError; the same holds for an age typed in such digits.
- PyText.ParseInt: underscores between digits and the 0x prefix are not modelled. In the
  two-character slices hex_to_rgb reads, neither can form a number Python accepts, so the model agrees
  there. A form age such as "1_0" is read by Python as 10, where the model reports it as not a number.
- PyText.ParseInt: the digit limit is fixed at CPython's default of 4300; changing it at run time
  with sys.set_int_max_str_digits is not modelled.
- PyText.FormatInt: str() refusing integers of more than 4300 digits is not modelled; the report only
  prints ages in 0..150.
- Navigation.Sidebar.NavigateTo: the fade colour each set_active call returns is dropped, as is the
  one in Navigation.Sidebar.CreateMenuItems; only the active flags they set are modelled.
- get_current_bg, hide_text and show_text only forward to widgets.
- The demo and test scripts (demo_complex_gui.py, test_complex_gui.py, test_gui.py) and main().
