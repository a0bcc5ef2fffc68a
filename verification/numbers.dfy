/** Integer helpers shared by the session and the file-name modules. */
module Numbers {

  function Min(a: int, b: int): int
  {
    if a <= b then a else b
  }
}
