/** `AbstractHttpContent`: a content's media type and its memoised length. */
module HttpContent {
  import opened Wrappers

  const UTF_8 := "UTF-8"

  /** The `IOException` that `writeTo` may throw. */
  datatype IOError = IOException

  /** A media type: `text` is what `build()` returns, `charsetParameter` its charset
      parameter, if any. */
  datatype MediaType = MediaType(text: string, charsetParameter: Option<string>)

  class AbstractHttpContent {
    var mediaType: Option<MediaType>
    /** The cached length; -1 while unknown. */
    var computedLength: int
    /** What `retrySupported()` returns for this content (true unless overridden). */
    const retrySupported: bool

    constructor (mediaType: Option<MediaType>, retrySupported: bool)
      ensures this.mediaType == mediaType && this.retrySupported == retrySupported
      ensures computedLength == -1
    {
      this.mediaType := mediaType;
      this.retrySupported := retrySupported;
      computedLength := -1;
    }

    /** `getEncoding()`: no content encoding by default. */
    function GetEncoding(): (encoding: Option<string>)
      ensures encoding.None?
    {
      None
    }

    /** `computeLength()`: -1 when retry is not supported, without writing;
        otherwise the number of bytes `writeTo` emits to the counting stream.
        `written` is what that call does: `Some(n)` when it writes `n` bytes, `None`
        when it throws an `IOException`, which is passed on. */
    method ComputeLength(written: Option<nat>) returns (length: Result<int, IOError>)
      ensures !retrySupported ==> length == Success(-1)
      ensures retrySupported && written.None? ==> length == Failure(IOException)
      ensures retrySupported && written.Some? ==> length == Success(written.value)
    {
      if !retrySupported {
        return Success(-1);
      }
      if written.None? {
        return Failure(IOException);
      }
      length := Success(written.value);
    }

    /** `getLength()`: computes the length while none is cached, and caches any
        result other than -1. `written` is what `writeTo` would do if called. An
        `IOException` is passed on and leaves the cache as it was. */
    method GetLength(written: Option<nat>) returns (length: Result<int, IOError>)
      modifies this`computedLength
      ensures old(computedLength) != -1 ==> length == Success(old(computedLength)) && computedLength == old(computedLength)
      ensures old(computedLength) == -1 && !retrySupported ==> length == Success(-1) && computedLength == -1
      ensures old(computedLength) == -1 && retrySupported && written.None? ==>
        length == Failure(IOException) && computedLength == -1
      ensures old(computedLength) == -1 && retrySupported && written.Some? ==>
        length == Success(written.value) && computedLength == written.value
    {
      if computedLength == -1 {
        var computed := ComputeLength(written);
        if computed.Failure? {
          return Failure(computed.error);
        }
        computedLength := computed.value;
      }
      length := Success(computedLength);
    }

    method SetMediaType(mediaType: Option<MediaType>)
      modifies this`mediaType
      ensures this.mediaType == mediaType
    {
      this.mediaType := mediaType;
    }

    /** `getCharset()`: the media type's charset parameter, UTF-8 when there is none. */
    function GetCharset(): (charset: string)
      reads this
      ensures mediaType.Some? && mediaType.value.charsetParameter.Some? ==> charset == mediaType.value.charsetParameter.value
      ensures mediaType.None? || mediaType.value.charsetParameter.None? ==> charset == UTF_8
    {
      if mediaType.None? || mediaType.value.charsetParameter.None? then UTF_8
      else mediaType.value.charsetParameter.value
    }

    /** `getType()`: the built media type, or null without one. */
    function GetType(): (contentType: Option<string>)
      reads this
      ensures contentType.None? <==> mediaType.None?
      ensures contentType.Some? ==> contentType.value == mediaType.value.text
    {
      if mediaType.None? then None else Some(mediaType.value.text)
    }
  }
}
