/** The parts of the JavaScript runtime the source calls but that this
    model does not define: number parsing and printing, dates and the
    clock. Each is a field of `Host`, so every result that depends on
    one says so by taking a `Host`. */
module Runtime {
  import opened Options
  import opened Text

  datatype Host = Host(
    /** `parseFloat(s)`; `None` stands for `NaN`. */
    parseFloat: string -> Option<real>,
    /** `${n}`: the text JavaScript prints for a number. */
    formatNumber: real -> string,
    /** `!isNaN(Date.parse(s))`. */
    dateParses: string -> bool,
    /** `new Date(s).toISOString().split('T')[0]`. */
    isoDay: string -> string,
    /** `Date.now()`. */
    now: nat)

  /** `parseFloat(s) || 0`: `NaN` (and 0 itself) become 0. */
  function NumberOrZero(host: Host, s: string): real {
    match host.parseFloat(s)
    case Some(v) => v
    case None => 0.0
  }

  /** The text of `v` is non-empty, has no `,` or `:` and no surrounding
      whitespace, and `parseFloat` reads it back as `v`. JavaScript's
      number printing has all of these properties for finite numbers. */
  predicate Printable(host: Host, v: real) {
    var t := host.formatNumber(v);
    t != "" && ',' !in t && ':' !in t && Trimmed(t) && host.parseFloat(t) == Some(v)
  }
}
