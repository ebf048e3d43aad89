/** The styling values a window is created with. How a background's colours are computed
    is not part of this model: a background is the pair of colours it yields for the light
    and the dark scheme, and its `color(is_dark)` picks between them. */
module Style {
  import opened Basics

  datatype Theme = Light | Dark | Auto

  /** A 0xRRGGBB colour value as the painting step consumes it. */
  type Color = x: int | 0 <= x < 0x1_0000_0000

  datatype Background = Background(lightColor: Color, darkColor: Color)

  /** `Background::light`, `Background::dark` and `Background::color(is_dark)`. */
  function LightOf(b: Background): Color { b.lightColor }

  function DarkOf(b: Background): Color { b.darkColor }

  function ColorOf(b: Background, isDark: bool): Color {
    if isDark then b.darkColor else b.lightColor
  }

  /** `WindowOptions`: title, optional icon path, theme, background and show-on-create. */
  datatype WindowOptions = WindowOptions(
    title: string,
    icon: Option<string>,
    theme: Theme,
    background: Background,
    show: bool)
}
