/** Presentation values the hover handlers write. */
module Style {
  /** A `font-weight`. */
  datatype Weight = Normal | Bold
}
