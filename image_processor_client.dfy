/**
 * The chains the example's client builds, each stated as the exact lines
 * its Display writes. The headers and separators the client prints around
 * them are not modelled.
 */
module ImageProcessorClient {
  import opened ImageFilter

  const Photo: string := "FotoLiburan.jpg"

  /** Creating the photo writes one loading line, and nothing else. */
  lemma LoadPhoto()
    ensures NewBaseImage(Photo).1 == ["Memuat gambar asli: FotoLiburan.jpg"]
  {
    assert LoadPrefix + Photo == "Memuat gambar asli: FotoLiburan.jpg";
  }

  /** The photo alone. */
  lemma ShowOriginal()
    ensures Display(BaseImage(Photo)) == ["Menampilkan gambar dasar: FotoLiburan.jpg"]
  {
    assert BaseLine(Photo) == "Menampilkan gambar dasar: FotoLiburan.jpg";
  }

  /** The photo with the black-and-white filter. */
  lemma ShowBlackAndWhite()
    ensures Display(BlackAndWhiteFilter(BaseImage(Photo))) ==
      ["Menampilkan gambar dasar: FotoLiburan.jpg",
       "Menerapkan filter Hitam Putih."]
  {
    ShowOriginal();
    BlackAndWhiteDisplay(BaseImage(Photo));
  }

  /** Sepia around the black-and-white chain. */
  lemma ShowBlackAndWhiteThenSepia()
    ensures Display(SepiaFilter(BlackAndWhiteFilter(BaseImage(Photo)))) ==
      ["Menampilkan gambar dasar: FotoLiburan.jpg",
       "Menerapkan filter Hitam Putih.",
       "Menerapkan filter Sepia."]
  {
    ShowBlackAndWhite();
    SepiaDisplay(BlackAndWhiteFilter(BaseImage(Photo)));
  }

  /** Sepia around Blur around the photo: blur first, then sepia. */
  lemma ShowBlurThenSepia()
    ensures Display(SepiaFilter(BlurFilter(BaseImage(Photo)))) ==
      ["Menampilkan gambar dasar: FotoLiburan.jpg",
       "Menerapkan filter Blur.",
       "Menerapkan filter Sepia."]
  {
    ShowOriginal();
    WrappingOrderDecidesOutput(BaseImage(Photo));
  }

  /** Blur around Sepia around the photo: sepia first, then blur. */
  lemma ShowSepiaThenBlur()
    ensures Display(BlurFilter(SepiaFilter(BaseImage(Photo)))) ==
      ["Menampilkan gambar dasar: FotoLiburan.jpg",
       "Menerapkan filter Sepia.",
       "Menerapkan filter Blur."]
  {
    ShowOriginal();
    WrappingOrderDecidesOutput(BaseImage(Photo));
  }
}
