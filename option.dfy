/** An optional value: `minDate`/`maxDate` may be absent, and the date
    picker may hand back no date at all. */
module Optional {

  datatype Option<+T> = None | Some(value: T)

}
